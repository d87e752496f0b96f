/** Where every dispatched item is: `inFlight` counts the items in hands, channels and workers, and each
    dispatched item leaves exactly once. */
module PipelineAccounting {
  import opened Frontier
  import opened Pipeline

  /** What is being counted: all items, or the copies of one. */
  datatype Census = Everything | CopiesOf(item: Item)

  function Weigh(c: Census, item: Item): nat {
    match c
    case Everything => 1
    case CopiesOf(x) => if item == x then 1 else 0
  }

  function InWorker(c: Census, w: Worker): nat {
    if Busy(w) then Weigh(c, w.item) else 0
  }

  function InWorkers(c: Census, workers: seq<Worker>): nat {
    if workers == [] then 0 else InWorkers(c, workers[..|workers| - 1]) + InWorker(c, workers[|workers| - 1])
  }

  function InHand(c: Census, d: Dispatcher): nat {
    if d.Counting? || d.Sending? then Weigh(c, d.item) else 0
  }

  function InChannel(c: Census, q: seq<Item>): nat {
    if q == [] then 0 else InChannel(c, q[..|q| - 1]) + Weigh(c, q[|q| - 1])
  }

  /** How much has been popped and has not left: in the dispatcher's hand, the channels and the workers. */
  function Inside(c: Census, s: State): nat {
    InHand(c, s.disp) + InChannel(c, s.fetchQueue) + InChannel(c, s.fetchResults) + InChannel(c, s.persistQueue)
    + InWorkers(c, s.workers)
  }

  lemma {:induction false} InWorkersAfterUpdate(c: Census, workers: seq<Worker>, i: nat, w: Worker)
    requires i < |workers|
    ensures InWorkers(c, workers[i := w]) == InWorkers(c, workers) - InWorker(c, workers[i]) + InWorker(c, w)
  {
    var last := |workers| - 1;
    if i == last {
      assert workers[i := w][..last] == workers[..last];
    } else {
      InWorkersAfterUpdate(c, workers[..last], i, w);
      assert workers[i := w][..last] == workers[..last][i := w];
    }
  }

  lemma {:induction false} NobodyBusy(c: Census, workers: seq<Worker>)
    requires forall w :: w in workers ==> !Busy(w)
    ensures InWorkers(c, workers) == 0
  {
    if workers != [] {
      NobodyBusy(c, workers[..|workers| - 1]);
    }
  }

  lemma {:induction false} ChannelHead(c: Census, q: seq<Item>)
    requires q != []
    ensures InChannel(c, q) == Weigh(c, q[0]) + InChannel(c, q[1..])
  {
    if |q| > 1 {
      var init := q[..|q| - 1];
      ChannelHead(c, init);
      assert init[1..] == q[1..][..|q[1..]| - 1];
    }
  }

  lemma ChannelSent(c: Census, q: seq<Item>, item: Item)
    ensures InChannel(c, q + [item]) == InChannel(c, q) + Weigh(c, item)
  {
    assert (q + [item])[..|q|] == q;
  }

  /** What a step takes out of the pipeline. */
  function Lost(c: Census, s: State, a: Action): nat {
    match a
    case Work(i, step) =>
      if i < |s.workers| && (step.Drop? || step.Abort? || step.Persist? || step.Fail?)
      then InWorker(c, s.workers[i]) else 0
    case GiveUp => InHand(c, s.disp)
    case _ => 0
  }

  function Gained(c: Census, a: Action): nat {
    if a.Pop? && a.result.Some? then Weigh(c, a.result.value) else 0
  }

  ghost predicate Flows(c: Census, s: State, a: Action, t: State) {
    Inside(c, t) == Inside(c, s) + Gained(c, a) - Lost(c, s, a)
  }

  lemma FetcherTakeFlows(c: Census, l: Limits, s: State, i: nat)
    requires StepEnabled(l, s, i, Take) && IsFetcher(l, i)
    ensures Inside(c, Taken(l, s, i)) == Inside(c, s)
  {
    ChannelHead(c, s.fetchQueue);
    InWorkersAfterUpdate(c, s.workers, i, Got(s.fetchQueue[0]));
  }

  lemma ParserTakeFlows(c: Census, l: Limits, s: State, i: nat)
    requires StepEnabled(l, s, i, Take) && IsParser(l, i)
    ensures Inside(c, Taken(l, s, i)) == Inside(c, s)
  {
    ChannelHead(c, s.fetchResults);
    InWorkersAfterUpdate(c, s.workers, i, Parsing(s.fetchResults[0]));
  }

  lemma PersisterTakeFlows(c: Census, l: Limits, s: State, i: nat)
    requires StepEnabled(l, s, i, Take) && !IsFetcher(l, i) && !IsParser(l, i)
    ensures Inside(c, Taken(l, s, i)) == Inside(c, s)
  {
    ChannelHead(c, s.persistQueue);
    InWorkersAfterUpdate(c, s.workers, i, Persisting(s.persistQueue[0]));
  }

  lemma TakeFlows(c: Census, l: Limits, s: State, i: nat)
    requires StepEnabled(l, s, i, Take)
    ensures Inside(c, Taken(l, s, i)) == Inside(c, s)
  {
    if IsFetcher(l, i) {
      FetcherTakeFlows(c, l, s, i);
    } else if IsParser(l, i) {
      ParserTakeFlows(c, l, s, i);
    } else {
      PersisterTakeFlows(c, l, s, i);
    }
  }

  lemma PassFlows(c: Census, l: Limits, s: State, i: nat)
    requires StepEnabled(l, s, i, Pass)
    ensures Flows(c, s, Work(i, Pass), Worked(l, s, i, Pass))
  {
    InWorkersAfterUpdate(c, s.workers, i, Idle);
    ChannelSent(c, if s.workers[i].Fetched? then s.fetchResults else s.persistQueue, s.workers[i].item);
  }

  lemma LeaveFlows(c: Census, s: State, i: nat, w: Worker)
    requires i < |s.workers| && Busy(s.workers[i]) && !Busy(w)
    ensures Inside(c, Leave(s, i, w)) == Inside(c, s) - InWorker(c, s.workers[i])
  {
    InWorkersAfterUpdate(c, s.workers, i, w);
  }

  /** The worker changes its state and keeps its item; the channels and the dispatcher are untouched. */
  ghost predicate Stays(s: State, i: nat, t: State) {
    && i < |s.workers| == |t.workers|
    && t.workers == s.workers[i := t.workers[i]]
    && Busy(t.workers[i]) == Busy(s.workers[i]) && (Busy(s.workers[i]) ==> t.workers[i].item == s.workers[i].item)
    && t.disp == s.disp && t.fetchQueue == s.fetchQueue && t.fetchResults == s.fetchResults
        && t.persistQueue == s.persistQueue
    && t.inFlight == s.inFlight && t.left == s.left && t.dispatched == s.dispatched
  }

  predicate TakesSendsOrLeaves(step: Step) {
    step.Take? || step.Pass? || step.Drop? || step.Abort? || step.Persist? || step.Fail?
  }

  predicate ReadsPage(step: Step) {
    step.NotAPage? || step.CountPage? || step.CheckLink? || step.Expanded?
  }

  predicate StoresLink(step: Step) {
    step.PushLink? || step.StoreFailed?
  }

  lemma ReadingStays(l: Limits, s: State, i: nat, step: Step)
    requires StepEnabled(l, s, i, step) && ReadsPage(step)
    ensures Stays(s, i, Worked(l, s, i, step))
  {
  }

  lemma ReservingStays(l: Limits, s: State, i: nat, step: Step)
    requires StepEnabled(l, s, i, step) && (step.Load? || step.Swap?)
    ensures Stays(s, i, Worked(l, s, i, step))
  {
  }

  lemma StoringStays(l: Limits, s: State, i: nat, step: Step)
    requires StepEnabled(l, s, i, step) && StoresLink(step)
    ensures Stays(s, i, Worked(l, s, i, step))
  {
  }

  lemma OnboardingStays(l: Limits, s: State, i: nat, step: Step)
    requires StepEnabled(l, s, i, step) && !TakesSendsOrLeaves(step) && !ReadsPage(step) && !StoresLink(step)
        && !step.Load? && !step.Swap?
    ensures Stays(s, i, Worked(l, s, i, step))
  {
  }

  lemma OtherStepsStay(l: Limits, s: State, i: nat, step: Step, t: State)
    requires StepEnabled(l, s, i, step) && !TakesSendsOrLeaves(step) && t == Worked(l, s, i, step)
    ensures Stays(s, i, t)
  {
    if ReadsPage(step) {
      ReadingStays(l, s, i, step);
    } else if StoresLink(step) {
      StoringStays(l, s, i, step);
    } else if step.Load? || step.Swap? {
      ReservingStays(l, s, i, step);
    } else {
      OnboardingStays(l, s, i, step);
    }
  }

  /** The counters of pages and discovered URLs are untouched. */
  ghost predicate Quiet(s: State, t: State) {
    t.pages == s.pages && t.ranked == s.ranked && t.pushers == s.pushers && t.urls == s.urls && t.granted == s.granted
  }

  lemma MovingIsQuiet(l: Limits, s: State, i: nat, step: Step, t: State)
    requires StepEnabled(l, s, i, step) && TakesSendsOrLeaves(step) && t == Worked(l, s, i, step)
    ensures Quiet(s, t) && t.workers == s.workers[i := t.workers[i]] && t.disp == s.disp
  {
  }

  lemma OnboardingIsQuiet(l: Limits, s: State, i: nat, step: Step, t: State)
    requires StepEnabled(l, s, i, step) && !TakesSendsOrLeaves(step) && t == Worked(l, s, i, step)
    requires !ReadsPage(step) && !StoresLink(step) && !step.Load? && !step.Swap?
    ensures Quiet(s, t)
  {
  }

  lemma DispatcherIsQuiet(l: Limits, s: State, a: Action, t: State)
    requires Enabled(l, s, a) && !a.Work? && t == Apply(l, s, a)
    ensures Quiet(s, t) && t.workers == s.workers
  {
  }

  lemma StayingFlows(c: Census, s: State, i: nat, step: Step, t: State)
    requires Stays(s, i, t) && !TakesSendsOrLeaves(step)
    ensures Flows(c, s, Work(i, step), t)
  {
    InWorkersAfterUpdate(c, s.workers, i, t.workers[i]);
  }

  lemma MovingFlows(c: Census, l: Limits, s: State, i: nat, step: Step, t: State)
    requires StepEnabled(l, s, i, step) && TakesSendsOrLeaves(step) && t == Worked(l, s, i, step)
    ensures Flows(c, s, Work(i, step), t)
  {
    if step.Take? {
      TakeFlows(c, l, s, i);
    } else if step.Pass? {
      PassFlows(c, l, s, i);
    } else {
      LeaveFlows(c, s, i, t.workers[i]);
    }
  }

  lemma WorkFlows(c: Census, l: Limits, s: State, i: nat, step: Step, t: State)
    requires StepEnabled(l, s, i, step) && t == Worked(l, s, i, step)
    ensures Flows(c, s, Work(i, step), t)
  {
    if TakesSendsOrLeaves(step) {
      MovingFlows(c, l, s, i, step, t);
    } else {
      OtherStepsStay(l, s, i, step, t);
      StayingFlows(c, s, i, step, t);
    }
  }

  lemma LookFlows(c: Census, l: Limits, s: State)
    requires Looks(s.disp)
    ensures Inside(c, Looked(l, s)) == Inside(c, s)
  {
  }

  lemma SendFlows(c: Census, l: Limits, s: State)
    requires Enabled(l, s, Send)
    ensures Inside(c, Apply(l, s, Send)) == Inside(c, s)
  {
    ChannelSent(c, s.fetchQueue, s.disp.item);
  }

  lemma DispatcherFlows(c: Census, l: Limits, s: State, a: Action)
    requires Enabled(l, s, a) && !a.Work? && !a.Look? && !a.Send?
    ensures Flows(c, s, a, Apply(l, s, a))
  {
  }

  lemma StepFlows(c: Census, l: Limits, s: State, a: Action, t: State)
    requires Enabled(l, s, a) && t == Apply(l, s, a)
    ensures Flows(c, s, a, t)
  {
    if a.Work? {
      WorkFlows(c, l, s, a.i, a.step, t);
    } else if a.Look? {
      LookFlows(c, l, s);
    } else if a.Send? {
      SendFlows(c, l, s);
    } else {
      DispatcherFlows(c, l, s, a);
    }
  }

  // ---------- The two counts ----------

  function Uncounted(d: Dispatcher): int {
    if d.Counting? then 1 else 0
  }

  ghost predicate Counted(s: State) {
    s.inFlight == Inside(Everything, s) - Uncounted(s.disp)
  }

  ghost predicate Balanced(s: State, item: Item) {
    s.dispatched[item] == Inside(CopiesOf(item), s) + s.left[item]
  }

  /** What the step does to the counter and to the two histories. */
  ghost predicate Records(s: State, a: Action, t: State, item: Item) {
    && t.inFlight - s.inFlight == Uncounted(s.disp) + Gained(Everything, a) - Lost(Everything, s, a) - Uncounted(t.disp)
    && t.left[item] == s.left[item] + Lost(CopiesOf(item), s, a)
    && t.dispatched[item] == s.dispatched[item] + Gained(CopiesOf(item), a)
  }

  lemma WorkRecords(l: Limits, s: State, i: nat, step: Step, t: State, item: Item)
    requires StepEnabled(l, s, i, step) && t == Worked(l, s, i, step)
    ensures Records(s, Work(i, step), t, item)
  {
    if !TakesSendsOrLeaves(step) {
      OtherStepsStay(l, s, i, step, t);
    }
  }

  lemma StepRecords(l: Limits, s: State, a: Action, t: State, item: Item)
    requires Enabled(l, s, a) && t == Apply(l, s, a)
    ensures Records(s, a, t, item)
  {
    if a.Work? {
      WorkRecords(l, s, a.i, a.step, t, item);
    }
  }

  lemma CountsStep(l: Limits, s: State, a: Action, t: State, item: Item)
    requires Enabled(l, s, a) && t == Apply(l, s, a)
    requires Counted(s) && Balanced(s, item)
    ensures Counted(t) && Balanced(t, item)
  {
    StepFlows(Everything, l, s, a, t);
    StepFlows(CopiesOf(item), l, s, a, t);
    StepRecords(l, s, a, t, item);
  }

  // ---------- No URL is dispatched twice ----------

  ghost predicate Unique(s: State) {
    SoundFrontier(s.frontier.(items := s.frontier.items + s.dispatched))
  }

  lemma PushKeepsUnique(f: Contents, gone: multiset<Item>, item: Item)
    requires SoundFrontier(f.(items := f.items + gone))
    ensures SoundFrontier(Pushed(f, item).(items := Pushed(f, item).items + gone))
  {
    if item.urlId !in f.seen {
      DistinctWithNew(f.items + gone, item);
      assert f.items + gone + multiset{item} == Pushed(f, item).items + gone;
    }
  }

  lemma MovingLeavesFrontier(l: Limits, s: State, i: nat, step: Step)
    requires StepEnabled(l, s, i, step) && TakesSendsOrLeaves(step)
    ensures var t := Worked(l, s, i, step); t.frontier == s.frontier && t.dispatched == s.dispatched
  {
  }

  lemma OthersLeaveFrontier(l: Limits, s: State, i: nat, step: Step)
    requires StepEnabled(l, s, i, step) && !TakesSendsOrLeaves(step) && !step.PushSitemap? && !step.PushLink?
    ensures var t := Worked(l, s, i, step); t.frontier == s.frontier && t.dispatched == s.dispatched
  {
  }

  lemma WorkIsUnique(l: Limits, s: State, i: nat, step: Step)
    requires StepEnabled(l, s, i, step) && Unique(s)
    ensures Unique(Worked(l, s, i, step))
  {
    if step.PushSitemap? {
      PushKeepsUnique(s.frontier, s.dispatched, step.entry);
    } else if step.PushLink? {
      PushKeepsUnique(s.frontier, s.dispatched, s.workers[i].link);
    } else if TakesSendsOrLeaves(step) {
      MovingLeavesFrontier(l, s, i, step);
    } else {
      OthersLeaveFrontier(l, s, i, step);
    }
  }

  lemma UniqueStep(l: Limits, s: State, a: Action)
    requires Enabled(l, s, a) && Unique(s)
    ensures Unique(Apply(l, s, a))
  {
    var t := Apply(l, s, a);
    if a.Work? {
      WorkIsUnique(l, s, a.i, a.step);
    } else if a.Pop? && a.result.Some? {
      assert t.frontier.items + t.dispatched == s.frontier.items + s.dispatched;
    } else {
      assert t.frontier == s.frontier && t.dispatched == s.dispatched;
    }
  }

  // ---------- Over whole runs ----------

  ghost predicate Accounted(s: State) {
    Counted(s) && Unique(s) && forall item :: Balanced(s, item)
  }

  lemma AccountedStep(l: Limits, s: State, a: Action, t: State)
    requires Enabled(l, s, a) && t == Apply(l, s, a) && Accounted(s)
    ensures Accounted(t)
  {
    UniqueStep(l, s, a);
    forall item ensures Counted(t) && Balanced(t, item) {
      CountsStep(l, s, a, t, item);
    }
    CountsStep(l, s, a, t, Item(0, "", "", 0));
  }

  lemma InitiallyAccounted(l: Limits, s: State, pages: int, urls: int)
    requires Initial(l, s, pages, urls)
    ensures Accounted(s)
  {
    assert s.frontier.(items := s.frontier.items + s.dispatched) == s.frontier;
    forall c ensures Inside(c, s) == 0 {
      NobodyBusy(c, s.workers);
    }
  }

  /** In every interleaving `inFlight` is the number of items in the dispatcher's hand, the channels and
      the workers (an item just popped is counted one step later), and what was dispatched is what is
      still there and what has left. */
  lemma {:induction false} EveryStateAccounted(l: Limits, states: seq<State>, actions: seq<Action>, pages: int,
      urls: int)
    requires Run(l, states, actions, pages, urls)
    ensures forall s :: s in states ==> Accounted(s)
  {
    if actions == [] {
      InitiallyAccounted(l, states[0], pages, urls);
    } else {
      var n := |actions| - 1;
      EveryStateAccounted(l, states[..n + 1], actions[..n], pages, urls);
      assert states[n] in states[..n + 1];
      AccountedStep(l, states[n], actions[n], states[n + 1]);
      assert states == states[..n + 1] + [states[n + 1]];
    }
  }

  lemma {:induction false} InChannelPart(item: Item, q: seq<Item>)
    ensures InChannel(CopiesOf(item), q) <= InChannel(Everything, q) == |q|
  {
    if q != [] {
      InChannelPart(item, q[..|q| - 1]);
    }
  }

  lemma {:induction false} InWorkersPart(item: Item, workers: seq<Worker>)
    ensures InWorkers(CopiesOf(item), workers) <= InWorkers(Everything, workers)
  {
    if workers != [] {
      InWorkersPart(item, workers[..|workers| - 1]);
    }
  }

  lemma InsidePart(item: Item, s: State)
    ensures Inside(CopiesOf(item), s) <= Inside(Everything, s)
  {
    InChannelPart(item, s.fetchQueue);
    InChannelPart(item, s.fetchResults);
    InChannelPart(item, s.persistQueue);
    InWorkersPart(item, s.workers);
  }

  /** No item is dispatched twice or leaves twice, and once `inFlight` reads zero with nothing in the
      dispatcher's hand every dispatched item has left exactly once. */
  lemma LeavesExactlyOnce(l: Limits, states: seq<State>, actions: seq<Action>, pages: int, urls: int, s: State,
      item: Item)
    requires Run(l, states, actions, pages, urls) && s in states
    ensures s.left[item] <= s.dispatched[item] <= 1
    ensures s.inFlight == 0 && !s.disp.Counting? ==> s.left[item] == s.dispatched[item]
  {
    EveryStateAccounted(l, states, actions, pages, urls);
    assert Accounted(s) && Balanced(s, item);
    InsidePart(item, s);
    var all := s.frontier.items + s.dispatched;
    if item in s.dispatched {
      assert item in all && SameUrl(item, item) && all[item] == 1;
    }
  }
}
