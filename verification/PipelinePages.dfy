/** The page budget. `pagesCrawled` can pass `maxPages`, because the dispatcher reads it and `inFlight` one
    after the other: by how much at most, and which pages may still push links. */
module PipelinePages {
  import opened GoText
  import opened Frontier
  import opened Pipeline
  import opened PipelineAccounting
  import opened PipelineExit

  // ---------- Items that may still become pages ----------

  predicate IsEarly(w: Worker) {
    w.Got? || w.Onboarding? || w.Ready? || w.Fetched? || w.Parsing?
  }

  function Early(c: Census, w: Worker): nat {
    if IsEarly(w) then Weigh(c, w.item) else 0
  }

  function EarlyIn(c: Census, workers: seq<Worker>): nat {
    if workers == [] then 0 else EarlyIn(c, workers[..|workers| - 1]) + Early(c, workers[|workers| - 1])
  }

  /** What has been popped and is not yet known to be a page or not. */
  function Pending(c: Census, s: State): nat {
    InHand(c, s.disp) + InChannel(c, s.fetchQueue) + InChannel(c, s.fetchResults) + EarlyIn(c, s.workers)
  }

  lemma {:induction false} EarlyAfterUpdate(c: Census, workers: seq<Worker>, i: nat, w: Worker)
    requires i < |workers|
    ensures EarlyIn(c, workers[i := w]) == EarlyIn(c, workers) - Early(c, workers[i]) + Early(c, w)
  {
    var last := |workers| - 1;
    if i == last {
      assert workers[i := w][..last] == workers[..last];
    } else {
      EarlyAfterUpdate(c, workers[..last], i, w);
      assert workers[i := w][..last] == workers[..last][i := w];
    }
  }

  lemma {:induction false} EarlyIsInWorkers(c: Census, workers: seq<Worker>)
    ensures EarlyIn(c, workers) <= InWorkers(c, workers)
  {
    if workers != [] {
      EarlyIsInWorkers(c, workers[..|workers| - 1]);
    }
  }

  lemma PendingIsInside(c: Census, s: State)
    ensures Pending(c, s) <= Inside(c, s)
  {
    EarlyIsInWorkers(c, s.workers);
  }

  /** What the step counts as a page. */
  function NewPage(c: Census, s: State, a: Action): nat {
    if a.Work? && a.step.CountPage? && a.i < |s.workers| then Early(c, s.workers[a.i]) else 0
  }

  ghost predicate Drains(c: Census, s: State, a: Action, t: State) {
    Pending(c, t) + NewPage(c, s, a) <= Pending(c, s) + Gained(c, a)
  }

  lemma FetcherTakeDrains(c: Census, l: Limits, s: State, i: nat)
    requires StepEnabled(l, s, i, Take) && IsFetcher(l, i)
    ensures Pending(c, Taken(l, s, i)) == Pending(c, s)
  {
    ChannelHead(c, s.fetchQueue);
    EarlyAfterUpdate(c, s.workers, i, Got(s.fetchQueue[0]));
  }

  lemma ParserTakeDrains(c: Census, l: Limits, s: State, i: nat)
    requires StepEnabled(l, s, i, Take) && IsParser(l, i)
    ensures Pending(c, Taken(l, s, i)) == Pending(c, s)
  {
    ChannelHead(c, s.fetchResults);
    EarlyAfterUpdate(c, s.workers, i, Parsing(s.fetchResults[0]));
  }

  lemma PersisterTakeDrains(c: Census, l: Limits, s: State, i: nat)
    requires StepEnabled(l, s, i, Take) && !IsFetcher(l, i) && !IsParser(l, i)
    ensures Pending(c, Taken(l, s, i)) == Pending(c, s)
  {
    EarlyAfterUpdate(c, s.workers, i, Persisting(s.persistQueue[0]));
  }

  lemma PassDrains(c: Census, l: Limits, s: State, i: nat)
    requires StepEnabled(l, s, i, Pass)
    ensures Pending(c, Worked(l, s, i, Pass)) == Pending(c, s)
  {
    EarlyAfterUpdate(c, s.workers, i, Idle);
    if s.workers[i].Fetched? {
      ChannelSent(c, s.fetchResults, s.workers[i].item);
    }
  }

  lemma LeaveDrains(c: Census, s: State, i: nat, w: Worker)
    requires i < |s.workers| && Busy(s.workers[i]) && !Busy(w)
    ensures Pending(c, Leave(s, i, w)) <= Pending(c, s)
  {
    EarlyAfterUpdate(c, s.workers, i, w);
  }

  lemma MovingDrains(c: Census, l: Limits, s: State, i: nat, step: Step, t: State)
    requires StepEnabled(l, s, i, step) && TakesSendsOrLeaves(step) && t == Worked(l, s, i, step)
    ensures Pending(c, t) <= Pending(c, s)
  {
    if step.Take? {
      if IsFetcher(l, i) {
        FetcherTakeDrains(c, l, s, i);
      } else if IsParser(l, i) {
        ParserTakeDrains(c, l, s, i);
      } else {
        PersisterTakeDrains(c, l, s, i);
      }
    } else if step.Pass? {
      PassDrains(c, l, s, i);
    } else {
      LeaveDrains(c, s, i, t.workers[i]);
    }
  }

  lemma EarlyEnds(l: Limits, s: State, i: nat, step: Step)
    requires StepEnabled(l, s, i, step) && !TakesSendsOrLeaves(step)
    ensures IsEarly(Worked(l, s, i, step).workers[i]) ==> IsEarly(s.workers[i]) && !step.CountPage?
  {
  }

  /** The other steps keep an early item early, or end its being so. */
  lemma OtherStepsDrain(c: Census, l: Limits, s: State, i: nat, step: Step, t: State)
    requires StepEnabled(l, s, i, step) && !TakesSendsOrLeaves(step) && t == Worked(l, s, i, step)
    requires Stays(s, i, t)
    ensures Drains(c, s, Work(i, step), t)
  {
    EarlyAfterUpdate(c, s.workers, i, t.workers[i]);
    EarlyEnds(l, s, i, step);
  }

  lemma LookDrains(c: Census, l: Limits, s: State)
    requires Looks(s.disp)
    ensures Pending(c, Looked(l, s)) == Pending(c, s)
  {
  }

  lemma SendDrains(c: Census, l: Limits, s: State)
    requires Enabled(l, s, Send)
    ensures Pending(c, Apply(l, s, Send)) == Pending(c, s)
  {
    ChannelSent(c, s.fetchQueue, s.disp.item);
  }

  lemma DispatcherDrains(c: Census, l: Limits, s: State, a: Action)
    requires Enabled(l, s, a) && !a.Work? && !a.Look? && !a.Send?
    ensures Drains(c, s, a, Apply(l, s, a))
  {
  }

  lemma StepDrains(c: Census, l: Limits, s: State, a: Action, t: State)
    requires Enabled(l, s, a) && t == Apply(l, s, a)
    ensures Drains(c, s, a, t)
  {
    if a.Work? && TakesSendsOrLeaves(a.step) {
      MovingDrains(c, l, s, a.i, a.step, t);
    } else if a.Work? {
      OtherStepsStay(l, s, a.i, a.step, t);
      OtherStepsDrain(c, l, s, a.i, a.step, t);
    } else if a.Look? {
      LookDrains(c, l, s);
    } else if a.Send? {
      SendDrains(c, l, s);
    } else {
      DispatcherDrains(c, l, s, a);
    }
  }

  // ---------- How far past the limit ----------

  /** 0 + 1 + ... + n. */
  function Tri(n: int): nat {
    if n <= 0 then 0 else Tri(n - 1) + n
  }

  lemma {:induction false} TriMonotone(m: int, n: int)
    requires m <= n
    ensures Tri(m) <= Tri(n)
    decreases n - m
  {
    if m < n {
      TriMonotone(m, n - 1);
    }
  }

  lemma {:induction false} TriIsTriangular(n: nat)
    ensures 2 * Tri(n) == n * (n + 1)
  {
    if n > 0 {
      TriIsTriangular(n - 1);
    }
  }

  /** The pages there are plus those that may still come of what has been popped. */
  function Potential(s: State): int {
    s.pages + Pending(Everything, s)
  }

  /** How many items can be on their way to becoming pages while the dispatcher holds none: two full
      channels, and an item in every fetcher and parser. */
  function Capacity(l: Limits): nat {
    FETCH_QUEUE + FETCH_RESULTS + l.fetchers + PARSERS
  }

  /** The least page count at which `maxPages` items can be pages or on their way. */
  function Base(l: Limits, start: int): int {
    if start > l.maxPages - Capacity(l) then start else l.maxPages - Capacity(l)
  }

  /** `over` pages too many took as many windows of growing length between the two reads, so that many
      pages had been counted, and the last window opened below the limit. */
  predicate Paid(max: int, base: int, pages: int, over: int) {
    over >= 1 ==> base + Tri(over - 1) < max && pages >= base + Tri(over)
  }

  predicate ReadOk(base: int, pages: int, over: int) {
    over >= 0 ==> pages >= base + Tri(over)
  }

  predicate PassOk(max: int, base: int, pages: int, over: int) {
    over >= 0 ==> base + Tri(over) < max && pages >= base + Tri(over + 1)
  }

  predicate WindowOk(max: int, base: int, s: State, over: int) {
    match s.disp
    case ReadInFlight(p) => p <= s.pages && ReadOk(base, p, over)
    case Popping => PassOk(max, base, s.pages, over)
    case _ => true
  }

  ghost predicate PagesKept(l: Limits, s: State, start: int) {
    && s.pages >= start
    && (l.maxPages > 0 && start < l.maxPages ==>
      && Paid(l.maxPages, Base(l, start), s.pages, Potential(s) - l.maxPages)
      && WindowOk(l.maxPages, Base(l, start), s, Potential(s) - l.maxPages))
    && (l.maxPages > 0 && start >= l.maxPages ==>
      Potential(s) == start && !s.disp.Popping? && (s.disp.ReadInFlight? ==> s.disp.pages >= start))
  }

  /** Fewer potential pages and more counted ones keep everything. */
  lemma LessIsKept(max: int, base: int, pages: int, pages': int, over: int, over': int)
    requires over' <= over && pages <= pages'
    ensures Paid(max, base, pages, over) ==> Paid(max, base, pages', over')
    ensures ReadOk(base, pages, over) ==> ReadOk(base, pages', over')
    ensures PassOk(max, base, pages, over) ==> PassOk(max, base, pages', over')
  {
    TriMonotone(over', over);
    TriMonotone(over' - 1, over - 1);
    TriMonotone(over' + 1, over + 1);
  }

  /** What a step that pops nothing does to the counters. */
  ghost predicate Settles(s: State, t: State) {
    s.pages <= t.pages && Potential(t) <= Potential(s)
  }

  lemma StepSettles(l: Limits, s: State, a: Action, t: State)
    requires Enabled(l, s, a) && t == Apply(l, s, a) && Gained(Everything, a) == 0
    ensures Settles(s, t)
  {
    StepDrains(Everything, l, s, a, t);
    PagesAfter(l, s, a, t);
  }

  lemma StepPages(l: Limits, s: State, i: nat, step: Step, t: State)
    requires StepEnabled(l, s, i, step) && !TakesSendsOrLeaves(step) && t == Worked(l, s, i, step)
    ensures t.pages == s.pages + NewPage(Everything, s, Work(i, step))
  {
    if ReadsPage(step) {
    } else if StoresLink(step) {
    } else if !step.Load? && !step.Swap? {
      OnboardingIsQuiet(l, s, i, step, t);
    }
  }

  lemma PagesAfter(l: Limits, s: State, a: Action, t: State)
    requires Enabled(l, s, a) && t == Apply(l, s, a)
    ensures t.pages == s.pages + NewPage(Everything, s, a)
    ensures a.Work? ==> t.disp == s.disp
  {
    if !a.Work? {
      DispatcherIsQuiet(l, s, a, t);
    } else if TakesSendsOrLeaves(a.step) {
      MovingIsQuiet(l, s, a.i, a.step, t);
    } else {
      OtherStepsStay(l, s, a.i, a.step, t);
      StepPages(l, s, a.i, a.step, t);
    }
  }

  // ---------- What fits into the pipeline ----------

  ghost predicate ChannelsFit(s: State) {
    && |s.fetchQueue| <= FETCH_QUEUE && |s.fetchResults| <= FETCH_RESULTS
    && |s.persistQueue| <= PERSIST_QUEUE
  }

  lemma WorkFits(l: Limits, s: State, i: nat, step: Step, t: State)
    requires StepEnabled(l, s, i, step) && t == Worked(l, s, i, step) && ChannelsFit(s)
    ensures ChannelsFit(t)
  {
    if !TakesSendsOrLeaves(step) {
      OtherStepsStay(l, s, i, step, t);
    }
  }

  lemma DispatcherFits(l: Limits, s: State, a: Action)
    requires Enabled(l, s, a) && !a.Work? && ChannelsFit(s)
    ensures ChannelsFit(Apply(l, s, a))
  {
  }

  lemma {:induction false} ChannelsAlwaysFit(l: Limits, states: seq<State>, actions: seq<Action>, pages: int, urls: int)
    requires Run(l, states, actions, pages, urls)
    ensures forall s :: s in states ==> ChannelsFit(s)
  {
    if actions != [] {
      var n := |actions| - 1;
      ChannelsAlwaysFit(l, states[..n + 1], actions[..n], pages, urls);
      var s, a := states[n], actions[n];
      assert s in states[..n + 1];
      if a.Work? {
        WorkFits(l, s, a.i, a.step, states[n + 1]);
      } else {
        DispatcherFits(l, s, a);
      }
      assert states == states[..n + 1] + [states[n + 1]];
    }
  }

  lemma {:induction false} EarlyAtMostAll(workers: seq<Worker>)
    ensures EarlyIn(Everything, workers) <= |workers|
  {
    if workers != [] {
      EarlyAtMostAll(workers[..|workers| - 1]);
    }
  }

  /** The channels hold no more than they can, and the persister has no early item. */
  lemma PendingFits(l: Limits, s: State)
    requires ChannelsFit(s) && RolesKept(l, s) && !s.disp.Counting? && !s.disp.Sending?
    ensures Pending(Everything, s) <= Capacity(l)
  {
    var n := |s.workers| - 1;
    assert RoleOk(l, s, n, s.workers[n]);
    EarlyAtMostAll(s.workers[..n]);
    InChannelPart(Item(0, "", "", 0), s.fetchQueue);
    InChannelPart(Item(0, "", "", 0), s.fetchResults);
  }

  /** The dispatcher reads `pagesCrawled`. */
  lemma ReadOpensWindow(l: Limits, s: State, start: int)
    requires PagesKept(l, s, start) && s.disp.ReadPages? && Pending(Everything, s) <= Capacity(l)
    ensures PagesKept(l, Looked(l, s), start)
  {
    var t := Looked(l, s);
    assert Potential(t) == Potential(s);
  }

  /** The dispatcher reads `inFlight` and goes on with `over` pages too many in prospect: since it read
      `pagesCrawled`, at least `over + 1` pages have been counted. */
  lemma PassTakesPages(l: Limits, s: State, over: int)
    requires Counted(s) && s.disp.ReadInFlight? && Potential(s) == l.maxPages + over
    requires Looked(l, s).disp.Popping?
    ensures s.pages - s.disp.pages >= over + 1
  {
    PendingIsInside(Everything, s);
  }

  lemma PassClosesWindow(l: Limits, s: State, start: int)
    requires PagesKept(l, s, start) && Counted(s) && s.disp.ReadInFlight? && l.maxPages > 0
    ensures PagesKept(l, Looked(l, s), start)
  {
    PendingIsInside(Everything, s);
    var t := Looked(l, s);
    assert Potential(t) == Potential(s);
    if t.disp.Popping? {
      PassTakesPages(l, s, Potential(s) - l.maxPages);
    }
  }

  lemma PopPays(l: Limits, s: State, item: Item, start: int)
    requires PagesKept(l, s, start) && Enabled(l, s, Pop(Some(item)))
    ensures PagesKept(l, Apply(l, s, Pop(Some(item))), start)
  {
    var t := Apply(l, s, Pop(Some(item)));
    assert Potential(t) == Potential(s) + 1;
  }

  predicate InWindow(d: Dispatcher) {
    d.ReadInFlight? || d.Popping?
  }

  lemma SettledIsKept(l: Limits, s: State, t: State, start: int)
    requires PagesKept(l, s, start) && Settles(s, t)
    requires t.disp == s.disp || !InWindow(t.disp)
    ensures PagesKept(l, t, start)
  {
    var over, over' := Potential(s) - l.maxPages, Potential(t) - l.maxPages;
    LessIsKept(l.maxPages, Base(l, start), s.pages, t.pages, over, over');
    if s.disp.ReadInFlight? {
      LessIsKept(l.maxPages, Base(l, start), s.disp.pages, s.disp.pages, over, over');
    }
  }

  lemma PagesStep(l: Limits, s: State, a: Action, t: State, start: int)
    requires PagesKept(l, s, start) && Counted(s) && Enabled(l, s, a) && t == Apply(l, s, a)
    requires s.disp.ReadPages? ==> Pending(Everything, s) <= Capacity(l)
    ensures PagesKept(l, t, start)
  {
    if a.Pop? && a.result.Some? {
      PopPays(l, s, a.result.value, start);
    } else if a.Look? && s.disp.ReadPages? {
      ReadOpensWindow(l, s, start);
    } else if a.Look? && s.disp.ReadInFlight? && l.maxPages > 0 {
      PassClosesWindow(l, s, start);
    } else {
      StepSettles(l, s, a, t);
      PagesAfter(l, s, a, t);
      if l.maxPages > 0 {
        SettledIsKept(l, s, t, start);
      }
    }
  }

  lemma {:induction false} NothingEarly(c: Census, workers: seq<Worker>)
    requires forall w :: w in workers ==> !IsEarly(w)
    ensures EarlyIn(c, workers) == 0
  {
    if workers != [] {
      NothingEarly(c, workers[..|workers| - 1]);
    }
  }

  lemma {:induction false} PagesKeptAlways(l: Limits, states: seq<State>, actions: seq<Action>, pages: int, urls: int)
    requires Run(l, states, actions, pages, urls)
    ensures forall s :: s in states ==> PagesKept(l, s, pages)
  {
    if actions == [] {
      NothingEarly(Everything, states[0].workers);
    } else {
      var n := |actions| - 1;
      PagesKeptAlways(l, states[..n + 1], actions[..n], pages, urls);
      EveryStateAccounted(l, states, actions, pages, urls);
      ChannelsAlwaysFit(l, states, actions, pages, urls);
      RolesKeptAlways(l, states, actions, pages, urls);
      assert states[n] in states[..n + 1] && states[n] in states;
      if states[n].disp.ReadPages? {
        PendingFits(l, states[n]);
      }
      PagesStep(l, states[n], actions[n], states[n + 1], pages);
      assert states == states[..n + 1] + [states[n + 1]];
    }
  }

  /** What is left of the limit, or what fits into the pipeline, whichever is less. */
  function Slack(l: Limits, start: int): int {
    if l.maxPages - start < Capacity(l) then l.maxPages - start else Capacity(l)
  }

  /** In every interleaving that starts below the limit, `pagesCrawled` passes `maxPages` by some `over`
      only if 0 + 1 + ... + (over - 1) is less than the slack; so from zero or more it comes at most to twice
      the limit. A pipeline that starts at the limit counts no page. */
  lemma PageOvershoot(l: Limits, states: seq<State>, actions: seq<Action>, pages: int, urls: int, s: State)
    requires Run(l, states, actions, pages, urls) && s in states && l.maxPages > 0
    ensures pages >= l.maxPages ==> s.pages == pages
    ensures pages < l.maxPages ==> s.pages <= 2 * l.maxPages - pages
    ensures pages < l.maxPages < s.pages ==> Tri(s.pages - l.maxPages - 1) < Slack(l, pages)
  {
    PagesKeptAlways(l, states, actions, pages, urls);
    assert PagesKept(l, s, pages);
    if pages < l.maxPages < s.pages {
      var over := s.pages - l.maxPages;
      TriMonotone(over - 1, Potential(s) - l.maxPages - 1);
      assert over - 1 <= Tri(over - 1);
    }
  }

  /** The same without the sum, for whatever limit and start: the square of the overshoot is bounded by
      the size of the channels and pools. */
  lemma OvershootByCapacity(l: Limits, states: seq<State>, actions: seq<Action>, pages: int, urls: int, s: State)
    requires Run(l, states, actions, pages, urls) && s in states && 0 < l.maxPages < s.pages && pages < l.maxPages
    ensures (s.pages - l.maxPages) * (s.pages - l.maxPages - 1) < 2 * Slack(l, pages) <= 2 * Capacity(l)
  {
    PageOvershoot(l, states, actions, pages, urls, s);
    TriIsTriangular(s.pages - l.maxPages - 1);
  }

  // ---------- Pages that push links ----------

  predicate Expands(w: Worker) {
    w.Expanding? || w.Checked? || w.Loaded? || w.Reserved?
  }

  /** The worker's rank is the one its item was counted with, and a link is in its hands only when the
      rank is below the limit. */
  predicate RankOk(l: Limits, w: Worker, ranked: seq<Item>, start: int) {
    Expands(w) ==>
      && start < w.rank <= start + |ranked| && ranked[w.rank - start - 1] == w.item
      && (l.maxPages > 0 && !w.Expanding? ==> w.rank < l.maxPages)
  }

  predicate MayPush(l: Limits, rank: int, pages: int, start: int) {
    start < rank <= pages && (l.maxPages > 0 ==> rank < l.maxPages)
  }

  ghost predicate RanksKept(l: Limits, s: State, start: int) {
    && s.pages == start + |s.ranked|
    && (forall i: nat :: i < |s.workers| ==> RankOk(l, s.workers[i], s.ranked, start))
    && (forall rank :: rank in s.pushers ==> MayPush(l, rank, s.pages, start))
  }

  /** How a step touches ranks: one worker changes, pages and pushers grow together with their histories. */
  ghost predicate Ranks(l: Limits, s: State, t: State, start: int) {
    && t.pages - s.pages == |t.ranked| - |s.ranked| && s.ranked <= t.ranked
    && |t.workers| == |s.workers|
    && (forall i: nat :: i < |t.workers| ==> t.workers[i] == s.workers[i] || RankOk(l, t.workers[i], t.ranked, start))
    && (forall rank :: rank in t.pushers && rank !in s.pushers ==> MayPush(l, rank, s.pages, start))
  }

  lemma ReadingRanks(l: Limits, s: State, i: nat, step: Step, start: int)
    requires StepEnabled(l, s, i, step) && RankOk(l, s.workers[i], s.ranked, start) && ReadsPage(step)
    requires s.pages == start + |s.ranked|
    ensures Ranks(l, s, Worked(l, s, i, step), start)
  {
  }

  lemma ReservingRanks(l: Limits, s: State, i: nat, step: Step, start: int)
    requires StepEnabled(l, s, i, step) && RankOk(l, s.workers[i], s.ranked, start) && (step.Load? || step.Swap?)
    ensures Ranks(l, s, Worked(l, s, i, step), start)
  {
  }

  lemma StoringRanks(l: Limits, s: State, i: nat, step: Step, start: int)
    requires StepEnabled(l, s, i, step) && RankOk(l, s.workers[i], s.ranked, start) && StoresLink(step)
    requires s.pages == start + |s.ranked|
    ensures Ranks(l, s, Worked(l, s, i, step), start)
  {
  }

  lemma MovingRanks(l: Limits, s: State, i: nat, step: Step, start: int)
    requires StepEnabled(l, s, i, step) && TakesSendsOrLeaves(step)
    ensures Ranks(l, s, Worked(l, s, i, step), start)
  {
    var t := Worked(l, s, i, step);
    MovingIsQuiet(l, s, i, step, t);
    assert !Expands(t.workers[i]);
  }

  lemma OnboardingRanks(l: Limits, s: State, i: nat, step: Step, start: int)
    requires StepEnabled(l, s, i, step) && !TakesSendsOrLeaves(step)
    requires !ReadsPage(step) && !StoresLink(step) && !step.Load? && !step.Swap?
    ensures Ranks(l, s, Worked(l, s, i, step), start)
  {
    var t := Worked(l, s, i, step);
    OnboardingIsQuiet(l, s, i, step, t);
    OtherStepsStay(l, s, i, step, t);
    assert step.PushSitemap? || !Expands(t.workers[i]);
  }

  lemma RanksStep(l: Limits, s: State, a: Action, t: State, start: int)
    requires Enabled(l, s, a) && t == Apply(l, s, a) && RanksKept(l, s, start)
    ensures Ranks(l, s, t, start)
  {
    if a.Work? {
      if ReadsPage(a.step) {
        ReadingRanks(l, s, a.i, a.step, start);
      } else if StoresLink(a.step) {
        StoringRanks(l, s, a.i, a.step, start);
      } else if a.step.Load? || a.step.Swap? {
        ReservingRanks(l, s, a.i, a.step, start);
      } else if TakesSendsOrLeaves(a.step) {
        MovingRanks(l, s, a.i, a.step, start);
      } else {
        OnboardingRanks(l, s, a.i, a.step, start);
      }
    } else {
      DispatcherIsQuiet(l, s, a, t);
    }
  }

  lemma RanksAreKept(l: Limits, s: State, t: State, start: int)
    requires RanksKept(l, s, start) && Ranks(l, s, t, start)
    ensures RanksKept(l, t, start)
  {
    forall i: nat | i < |t.workers| ensures RankOk(l, t.workers[i], t.ranked, start) {
      assert RankOk(l, s.workers[i], s.ranked, start);
    }
    forall rank | rank in t.pushers ensures MayPush(l, rank, t.pages, start) {
      assert rank in s.pushers ==> MayPush(l, rank, s.pages, start);
    }
  }

  lemma {:induction false} RanksKeptAlways(l: Limits, states: seq<State>, actions: seq<Action>, pages: int, urls: int)
    requires Run(l, states, actions, pages, urls)
    ensures forall s :: s in states ==> RanksKept(l, s, pages)
  {
    if actions == [] {
      assert forall i: nat :: i < |states[0].workers| ==> states[0].workers[i] in states[0].workers;
    } else {
      var n := |actions| - 1;
      RanksKeptAlways(l, states[..n + 1], actions[..n], pages, urls);
      assert states[n] in states[..n + 1];
      RanksStep(l, states[n], actions[n], states[n + 1], pages);
      RanksAreKept(l, states[n], states[n + 1], pages);
      assert states == states[..n + 1] + [states[n + 1]];
    }
  }

  lemma {:induction false} IntsBetween(ranks: set<int>, lo: int, hi: int)
    requires forall rank :: rank in ranks ==> lo < rank < hi
    ensures |ranks| <= if lo + 1 < hi then hi - lo - 1 else 0
    decreases hi - lo
  {
    if lo + 1 < hi {
      IntsBetween(ranks - {hi - 1}, lo, hi - 1);
      if hi - 1 in ranks {
        assert ranks == ranks - {hi - 1} + {hi - 1};
      }
    } else {
      assert ranks == {};
    }
  }

  /** In every interleaving each page has its own rank, every rank that pushes a link is below the limit,
      and so fewer than `maxPages` pages ever push one. */
  lemma FewPagesPush(l: Limits, states: seq<State>, actions: seq<Action>, pages: int, urls: int, s: State)
    requires Run(l, states, actions, pages, urls) && s in states && l.maxPages > 0
    ensures |s.ranked| == s.pages - pages
    ensures |s.pushers| <= if pages + 1 < l.maxPages then l.maxPages - 1 - pages else 0
  {
    RanksKeptAlways(l, states, actions, pages, urls);
    assert RanksKept(l, s, pages);
    IntsBetween(s.pushers, pages, l.maxPages);
  }

  // ---------- No item is counted as a page twice ----------

  ghost predicate PagesDistinct(s: State, item: Item) {
    InChannel(CopiesOf(item), s.ranked) + Pending(CopiesOf(item), s) <= s.dispatched[item]
  }

  lemma RankedAfter(c: Census, l: Limits, s: State, a: Action, t: State)
    requires Enabled(l, s, a) && t == Apply(l, s, a)
    ensures InChannel(c, t.ranked) == InChannel(c, s.ranked) + NewPage(c, s, a)
  {
    if !a.Work? {
      DispatcherIsQuiet(l, s, a, t);
    } else if TakesSendsOrLeaves(a.step) {
      MovingIsQuiet(l, s, a.i, a.step, t);
    } else if a.step.CountPage? {
      ChannelSent(c, s.ranked, s.workers[a.i].item);
    } else {
      OthersRankNothing(l, s, a.i, a.step, t);
    }
  }

  lemma OthersRankNothing(l: Limits, s: State, i: nat, step: Step, t: State)
    requires StepEnabled(l, s, i, step) && !TakesSendsOrLeaves(step) && !step.CountPage? && t == Worked(l, s, i, step)
    ensures t.ranked == s.ranked
  {
    if ReadsPage(step) {
    } else if StoresLink(step) {
    } else if !step.Load? && !step.Swap? {
      OnboardingIsQuiet(l, s, i, step, t);
    }
  }

  lemma {:induction false} PagesDistinctAlways(l: Limits, states: seq<State>, actions: seq<Action>, pages: int,
      urls: int, item: Item)
    requires Run(l, states, actions, pages, urls)
    ensures forall s :: s in states ==> PagesDistinct(s, item)
  {
    if actions == [] {
      NothingEarly(CopiesOf(item), states[0].workers);
    } else {
      var n := |actions| - 1;
      PagesDistinctAlways(l, states[..n + 1], actions[..n], pages, urls, item);
      var s, a, t := states[n], actions[n], states[n + 1];
      assert s in states[..n + 1];
      StepDrains(CopiesOf(item), l, s, a, t);
      RankedAfter(CopiesOf(item), l, s, a, t);
      StepRecords(l, s, a, t, item);
      assert states == states[..n + 1] + [states[n + 1]];
    }
  }

  /** An item is counted as a page at most once, and only after it was dispatched. */
  lemma CountedOnce(l: Limits, states: seq<State>, actions: seq<Action>, pages: int, urls: int, s: State, item: Item)
    requires Run(l, states, actions, pages, urls) && s in states
    ensures InChannel(CopiesOf(item), s.ranked) <= s.dispatched[item] <= 1
  {
    PagesDistinctAlways(l, states, actions, pages, urls, item);
    assert PagesDistinct(s, item);
    LeavesExactlyOnce(l, states, actions, pages, urls, s, item);
  }
}
