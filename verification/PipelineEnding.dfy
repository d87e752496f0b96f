/** With nothing in flight the dispatcher never ticks in vain: it dispatches the next item, or the pipeline
    ends by itself within a few steps. */
module PipelineEnding {
  import opened GoText
  import opened Frontier
  import opened Pipeline
  import opened PipelineAccounting
  import opened PipelineExit
  import opened PipelineMoves
  import opened PipelinePages
  import opened PipelineRuns

  /** Nothing is left to crawl, or the page limit has been met. */
  predicate Spent(l: Limits, s: State) {
    s.frontier.items == multiset{} || (l.maxPages > 0 && s.pages >= l.maxPages)
  }

  // ---------- Everybody else is idle ----------

  /** Nothing is in flight and the dispatcher holds nothing. */
  ghost predicate Still(s: State) {
    s.inFlight == 0 && Counted(s) && !s.disp.Counting? && !s.disp.Sending?
  }

  /** Then a worker can only leave, or report a failure it has met before. */
  lemma StillWorkers(l: Limits, s: State, i: nat, step: Step)
    requires Still(s) && StepEnabled(l, s, i, step)
    ensures (step.Quit? && InboxClosed(l, s, i)) || step.CancelAll?
    ensures var t := Worked(l, s, i, step); t == s.(workers := s.workers[i := Gone], cancelled := t.cancelled)
  {
    InsideZero(s, i);
  }

  lemma {:induction false} GoneHoldsNothing(workers: seq<Worker>, i: nat)
    requires i < |workers| && !Busy(workers[i])
    ensures InWorkers(Everything, workers[i := Gone]) == InWorkers(Everything, workers)
  {
    InWorkersAfterUpdate(Everything, workers, i, Gone);
  }

  lemma StaysStill(l: Limits, s: State, i: nat, step: Step)
    requires Still(s) && StepEnabled(l, s, i, step)
    ensures Still(Worked(l, s, i, step))
  {
    StillWorkers(l, s, i, step);
    InsideZero(s, i);
    GoneHoldsNothing(s.workers, i);
  }

  // ---------- The way out ----------

  /** Where the dispatcher stands on its way out. `Sleeping` is not among it. */
  ghost predicate WayOut(l: Limits, s: State) {
    match s.disp
    case ReadPages => Spent(l, s)
    case ReadInFlight(p) => p == s.pages && l.maxPages > 0 && Spent(l, s)
    case Popping => s.frontier.items == multiset{}
    case ExitPages => Spent(l, s)
    case ExitInFlight(p) => p == s.pages && l.maxPages > 0 && Spent(l, s)
    case ExitLen(reached) => s.frontier.items == multiset{} || reached
    case ExitZero(_) => true
    case Draining(closed, clean, _) => clean && 1 <= closed <= 3
    case Returned(clean, _) => clean
    case _ => false
  }

  ghost predicate OnWayOut(l: Limits, s: State) {
    Still(s) && WayOut(l, s)
  }

  function StepsLeft(d: Dispatcher): nat {
    match d
    case ReadPages => 10
    case ReadInFlight(_) => 9
    case Popping => 8
    case ExitPages => 7
    case ExitInFlight(_) => 6
    case ExitLen(_) => 5
    case ExitZero(_) => 4
    case Draining(closed, _, _) => if closed <= 3 then 4 - closed else 0
    case _ => 0
  }

  function Present(workers: seq<Worker>): nat {
    if workers == [] then 0
    else Present(workers[..|workers| - 1]) + if workers[|workers| - 1].Gone? then 0 else 1
  }

  lemma {:induction false} OneLess(workers: seq<Worker>, i: nat)
    requires i < |workers| && !workers[i].Gone?
    ensures Present(workers[i := Gone]) + 1 == Present(workers)
  {
    var n := |workers| - 1;
    if i == n {
      assert workers[i := Gone][..n] == workers[..n];
    } else {
      OneLess(workers[..n], i);
      assert workers[i := Gone][..n] == workers[..n][i := Gone];
    }
  }

  /** How many steps the pipeline can still take. */
  function Left(s: State): nat {
    StepsLeft(s.disp) + Present(s.workers)
  }

  lemma WorkStaysOnWay(l: Limits, s: State, i: nat, step: Step)
    requires OnWayOut(l, s) && StepEnabled(l, s, i, step)
    ensures var t := Worked(l, s, i, step); OnWayOut(l, t) && Left(t) < Left(s) && t.frontier == s.frontier
  {
    StillWorkers(l, s, i, step);
    StaysStill(l, s, i, step);
    OneLess(s.workers, i);
  }

  lemma LookStaysOnWay(l: Limits, s: State)
    requires Still(s) && WayOut(l, s) && Looks(s.disp)
    ensures var t := Looked(l, s);
            WayOut(l, t) && StepsLeft(t.disp) < StepsLeft(s.disp) && t.frontier == s.frontier && t.workers == s.workers
            && t.inFlight == 0 && !t.disp.Counting? && !t.disp.Sending?
  {
  }

  lemma OthersStayOnWay(l: Limits, s: State, a: Action)
    requires Still(s) && WayOut(l, s) && Enabled(l, s, a) && !a.Work? && a != Cancel && !a.Look?
    ensures var t := Apply(l, s, a);
            WayOut(l, t) && StepsLeft(t.disp) < StepsLeft(s.disp) && t.frontier == s.frontier && t.workers == s.workers
            && t.inFlight == 0 && !t.disp.Counting? && !t.disp.Sending?
    ensures a == Pop(None) || a.Close?
  {
  }

  lemma DispatcherStaysOnWay(l: Limits, s: State, a: Action)
    requires OnWayOut(l, s) && Enabled(l, s, a) && !a.Work? && a != Cancel
    ensures var t := Apply(l, s, a);
            OnWayOut(l, t) && Left(t) < Left(s) && t.frontier == s.frontier
  {
    CountedStep(l, s, a, Apply(l, s, a));
    if a.Look? {
      LookStaysOnWay(l, s);
    } else {
      OthersStayOnWay(l, s, a);
    }
  }

  /** Every step of whatever goroutine, a cancellation apart, brings the end nearer. */
  lemma StepStaysOnWay(l: Limits, s: State, a: Action)
    requires OnWayOut(l, s) && Enabled(l, s, a)
    ensures var t := Apply(l, s, a);
            OnWayOut(l, t) && t.frontier == s.frontier && Left(t) + (if a == Cancel then 0 else 1) <= Left(s)
  {
    if a.Work? {
      WorkStaysOnWay(l, s, a.i, a.step);
    } else if a != Cancel {
      DispatcherStaysOnWay(l, s, a);
    }
  }

  /** The steps that are not somebody else's cancellation. */
  function Own(actions: seq<Action>): nat {
    if actions == [] then 0
    else Own(actions[..|actions| - 1]) + if actions[|actions| - 1] == Cancel then 0 else 1
  }

  lemma {:induction false} StaysOnWay(l: Limits, states: seq<State>, actions: seq<Action>)
    requires |states| == |actions| + 1 && OnWayOut(l, states[0])
    requires forall i :: 0 <= i < |actions| ==>
               Enabled(l, states[i], actions[i]) && states[i + 1] == Apply(l, states[i], actions[i])
    ensures OnWayOut(l, states[|actions|]) && states[|actions|].frontier == states[0].frontier
    ensures Own(actions) + Left(states[|actions|]) <= Left(states[0])
  {
    if actions != [] {
      var n := |actions| - 1;
      StaysOnWay(l, states[..n + 1], actions[..n]);
      StepStaysOnWay(l, states[n], actions[n]);
    }
  }

  /** The pipeline has returned, or one of its goroutines can make a step. */
  ghost predicate CanStep(l: Limits, s: State) {
    s.disp.Returned? || exists a :: a != Cancel && Enabled(l, s, a)
  }

  lemma SomeoneCanStep(l: Limits, states: seq<State>, actions: seq<Action>, pages: int, urls: int, s: State)
    requires Run(l, states, actions, pages, urls) && s in states && l.fetchers >= 1
    ensures CanStep(l, s)
  {
    if !s.disp.Returned? {
      NeverStuck(l, states, actions, pages, urls, s);
      var a :| Progress(s, a) && Enabled(l, s, a);
    }
  }

  /** When the dispatcher starts a round with nothing in flight and the frontier empty or the page limit met,
      the crawl ends, whatever the goroutines do and however they interleave: it never sleeps or dispatches
      again, makes at most 10 steps and one per worker, can always make the next one, and the only way to
      stop is to return cleanly, with the frontier as it was. */
  lemma CrawlEnds(l: Limits, states: seq<State>, actions: seq<Action>, pages: int, urls: int, k: nat, m: nat)
    requires Run(l, states, actions, pages, urls) && l.fetchers >= 1 && k <= m <= |actions|
    requires states[k].disp == ReadPages && states[k].inFlight == 0 && Spent(l, states[k])
    ensures WayOut(l, states[m]) && states[m].inFlight == 0 && states[m].frontier == states[k].frontier
    ensures Own(actions[k..m]) + Left(states[m]) <= Left(states[k]) == 10 + Present(states[k].workers)
    ensures CanStep(l, states[m])
  {
    EveryStateAccounted(l, states, actions, pages, urls);
    assert states[k] in states && states[m] in states;
    assert Accounted(states[k]);
    StaysOnWay(l, states[k..m + 1], actions[k..m]);
    SomeoneCanStep(l, states, actions, pages, urls, states[m]);
  }

  // ---------- No tick in vain ----------

  /** What the dispatcher has read of `pagesCrawled`, which it reads only under a limit, is no more than it is. */
  predicate ReadBefore(l: Limits, s: State) {
    && (s.disp.ReadInFlight? || s.disp.ExitInFlight? ==> l.maxPages > 0 && s.disp.pages <= s.pages)
    && (s.disp.Draining? ==> 1 <= s.disp.closed <= 3)
  }

  lemma LookReadBefore(l: Limits, s: State)
    requires Looks(s.disp) && ReadBefore(l, s)
    ensures ReadBefore(l, Looked(l, s))
  {
  }

  lemma DispatcherReadBefore(l: Limits, s: State, a: Action)
    requires Enabled(l, s, a) && !a.Work? && ReadBefore(l, s)
    ensures ReadBefore(l, Apply(l, s, a))
  {
    if a.Look? {
      LookReadBefore(l, s);
    }
  }

  lemma {:induction false} AlwaysReadBefore(l: Limits, states: seq<State>, actions: seq<Action>, pages: int, urls: int)
    requires Run(l, states, actions, pages, urls)
    ensures forall s :: s in states ==> ReadBefore(l, s)
  {
    if actions != [] {
      var n := |actions| - 1;
      AlwaysReadBefore(l, states[..n + 1], actions[..n], pages, urls);
      assert states[n] in states[..n + 1];
      PagesAfter(l, states[n], actions[n], states[n + 1]);
      if !actions[n].Work? {
        DispatcherReadBefore(l, states[n], actions[n]);
      }
      assert states == states[..n + 1] + [states[n + 1]];
    }
  }

  /** The dispatcher has neither popped an item nor decided to end with an error. */
  predicate Searching(d: Dispatcher) {
    !d.Counting? && !d.Sending? && (d.Draining? || d.Returned? ==> d.clean)
  }

  /** Nothing is in flight; with the dispatcher anywhere between two items, or on its way out. */
  ghost predicate Resting(l: Limits, s: State) {
    && Still(s) && ReadBefore(l, s) && Searching(s.disp)
    && (s.disp.Draining? || s.disp.Returned? ==> WayOut(l, s))
  }

  /** How many steps the dispatcher can make, at most, until it has popped an item or returned. */
  ghost function StepsToResolve(l: Limits, s: State): nat {
    if WayOut(l, s) then StepsLeft(s.disp)
    else
      match s.disp
      case ReadPages => 10
      case ReadInFlight(_) => 9
      case Popping => 8
      case Sleeping => 11
      case ExitLen(_) => 12
      case ExitInFlight(_) => 13
      case _ => 14
  }

  ghost function ToResolve(l: Limits, s: State): nat {
    StepsToResolve(l, s) + Present(s.workers)
  }

  lemma LookResolves(l: Limits, s: State)
    requires Resting(l, s) && Looks(s.disp)
    ensures var t := Looked(l, s);
            && t.inFlight == 0 && ReadBefore(l, t) && Searching(t.disp) && t.workers == s.workers
            && (t.disp.Draining? || t.disp.Returned? ==> WayOut(l, t))
            && StepsToResolve(l, t) < StepsToResolve(l, s)
  {
  }

  lemma OthersResolve(l: Limits, s: State, a: Action)
    requires Resting(l, s) && Enabled(l, s, a) && !a.Work? && a != Cancel && !a.Look?
    requires Searching(Apply(l, s, a).disp)
    ensures var t := Apply(l, s, a);
            && t.inFlight == 0 && ReadBefore(l, t) && t.workers == s.workers
            && (t.disp.Draining? || t.disp.Returned? ==> WayOut(l, t))
            && StepsToResolve(l, t) < StepsToResolve(l, s)
  {
  }

  lemma WorkResolves(l: Limits, s: State, i: nat, step: Step)
    requires Resting(l, s) && StepEnabled(l, s, i, step)
    ensures var t := Worked(l, s, i, step); Resting(l, t) && ToResolve(l, t) < ToResolve(l, s)
  {
    StillWorkers(l, s, i, step);
    StaysStill(l, s, i, step);
    OneLess(s.workers, i);
    var t := Worked(l, s, i, step);
    assert WayOut(l, t) <==> WayOut(l, s);
  }

  lemma StepResolves(l: Limits, s: State, a: Action, t: State)
    requires Resting(l, s) && Enabled(l, s, a) && t == Apply(l, s, a) && Searching(t.disp)
    ensures Resting(l, t) && ToResolve(l, t) + (if a == Cancel then 0 else 1) <= ToResolve(l, s)
  {
    CountedStep(l, s, a, t);
    if a.Work? {
      WorkResolves(l, s, a.i, a.step);
    } else if a.Look? {
      LookResolves(l, s);
    } else if a != Cancel {
      OthersResolve(l, s, a);
    }
  }

  /** Steps that lead through these states, in all of which the dispatcher is still searching. */
  ghost predicate SearchingSteps(l: Limits, states: seq<State>, actions: seq<Action>) {
    && |states| == |actions| + 1
    && (forall i :: 0 <= i < |actions| ==>
        Enabled(l, states[i], actions[i]) && states[i + 1] == Apply(l, states[i], actions[i]))
    && forall i :: 0 <= i < |states| ==> Searching(states[i].disp)
  }

  lemma LastSearchingStep(l: Limits, states: seq<State>, actions: seq<Action>)
    requires SearchingSteps(l, states, actions) && actions != []
    ensures var n := |actions| - 1;
            && SearchingSteps(l, states[..n + 1], actions[..n])
            && Enabled(l, states[n], actions[n]) && states[n + 1] == Apply(l, states[n], actions[n])
            && Searching(states[n + 1].disp)
  {
  }

  lemma {:induction false} StaysResting(l: Limits, states: seq<State>, actions: seq<Action>)
    requires SearchingSteps(l, states, actions) && Resting(l, states[0])
    ensures Resting(l, states[|actions|])
    ensures Own(actions) + ToResolve(l, states[|actions|]) <= ToResolve(l, states[0])
    decreases |actions|
  {
    if actions != [] {
      var n := |actions| - 1;
      LastSearchingStep(l, states, actions);
      StaysResting(l, states[..n + 1], actions[..n]);
      StepResolves(l, states[n], actions[n], states[n + 1]);
    }
  }

  lemma RestsWhenSearching(l: Limits, states: seq<State>, actions: seq<Action>, pages: int, urls: int, s: State)
    requires Run(l, states, actions, pages, urls) && s in states && s.inFlight == 0 && Searching(s.disp)
    ensures Resting(l, s) && ToResolve(l, s) <= 14 + Present(s.workers)
  {
    EveryStateAccounted(l, states, actions, pages, urls);
    AlwaysReadBefore(l, states, actions, pages, urls);
    assert Accounted(s) && ReadBefore(l, s);
  }

  lemma SearchingSlice(l: Limits, states: seq<State>, actions: seq<Action>, pages: int, urls: int, k: nat, m: nat)
    requires Run(l, states, actions, pages, urls) && k <= m <= |actions|
    requires forall i :: k <= i <= m ==> Searching(states[i].disp)
    ensures SearchingSteps(l, states[k..m + 1], actions[k..m])
  {
  }

  /** From every reachable state with nothing in flight, whatever the goroutines do: within 14 steps of the
      dispatcher and one per worker the dispatcher has popped the next item, the pipeline has returned, or a
      cancellation has ended it; and some goroutine can always step. So it never goes on ticking in vain. */
  lemma NoTickInVain(l: Limits, states: seq<State>, actions: seq<Action>, pages: int, urls: int, k: nat, m: nat)
    requires Run(l, states, actions, pages, urls) && l.fetchers >= 1 && k <= m <= |actions|
    requires states[k].inFlight == 0 && forall i :: k <= i <= m ==> Searching(states[i].disp)
    ensures Own(actions[k..m]) + Present(states[m].workers) <= 14 + Present(states[k].workers)
    ensures CanStep(l, states[m])
  {
    assert states[k] in states && states[m] in states;
    RestsWhenSearching(l, states, actions, pages, urls, states[k]);
    SearchingSlice(l, states, actions, pages, urls, k, m);
    StaysResting(l, states[k..m + 1], actions[k..m]);
    SomeoneCanStep(l, states, actions, pages, urls, states[m]);
  }
}
