/** How the pipeline ends: what a clean exit leaves behind, and that it never gets stuck on the way. */
module PipelineExit {
  import opened GoText
  import opened Frontier
  import opened Pipeline
  import opened PipelineAccounting

  // ---------- What a clean exit leaves ----------

  /** The pipeline has decided to end without an error. */
  predicate CleanExit(d: Dispatcher) {
    (d.Draining? || d.Returned?) && d.clean
  }

  /** ... and the page limit had not been reached. */
  predicate BelowLimit(d: Dispatcher) {
    (d.ExitZero? && !d.reached) || (CleanExit(d) && !d.reached)
  }

  ghost predicate ExitKept(s: State) {
    && (CleanExit(s.disp) ==> s.inFlight == 0)
    && (BelowLimit(s.disp) ==> s.frontier.items == s.late)
  }

  lemma {:induction false} EmptyWorkers(workers: seq<Worker>, i: nat)
    requires InWorkers(Everything, workers) == 0 && i < |workers|
    ensures !Busy(workers[i])
  {
    if i < |workers| - 1 {
      EmptyWorkers(workers[..|workers| - 1], i);
    }
  }

  lemma InsideZero(s: State, i: nat)
    requires Inside(Everything, s) == 0
    ensures s.fetchQueue == [] && s.fetchResults == [] && s.persistQueue == []
    ensures i < |s.workers| ==> !Busy(s.workers[i])
  {
    InChannelPart(Item(0, "", "", 0), s.fetchQueue);
    InChannelPart(Item(0, "", "", 0), s.fetchResults);
    InChannelPart(Item(0, "", "", 0), s.persistQueue);
    if i < |s.workers| {
      EmptyWorkers(s.workers, i);
    }
  }

  /** A worker pushes the same on the frontier and on the record of late pushes. */
  ghost predicate PushesBoth(s: State, t: State) {
    s.frontier.items == s.late ==> t.frontier.items == t.late
  }

  lemma MovingPushesBoth(l: Limits, s: State, i: nat, step: Step)
    requires StepEnabled(l, s, i, step) && TakesSendsOrLeaves(step)
    ensures PushesBoth(s, Worked(l, s, i, step))
  {
  }

  lemma OthersPushBoth(l: Limits, s: State, i: nat, step: Step)
    requires StepEnabled(l, s, i, step) && !TakesSendsOrLeaves(step)
    ensures PushesBoth(s, Worked(l, s, i, step))
  {
  }

  lemma WorkKeepsExit(l: Limits, s: State, i: nat, step: Step, t: State)
    requires StepEnabled(l, s, i, step) && t == Worked(l, s, i, step)
    requires Counted(s) && ExitKept(s)
    ensures ExitKept(t)
  {
    if TakesSendsOrLeaves(step) {
      MovingPushesBoth(l, s, i, step);
      MovingIsQuiet(l, s, i, step, t);
    } else {
      OthersPushBoth(l, s, i, step);
      OtherStepsStay(l, s, i, step, t);
    }
    if CleanExit(s.disp) {
      InsideZero(s, i);
      IdleStepsKeepCount(l, s, i, step, t);
    }
  }

  lemma IdleStepsKeepCount(l: Limits, s: State, i: nat, step: Step, t: State)
    requires StepEnabled(l, s, i, step) && t == Worked(l, s, i, step) && !Busy(s.workers[i])
    ensures t.inFlight == s.inFlight
  {
  }

  lemma LookKeepsExit(l: Limits, s: State)
    requires Looks(s.disp) && ExitKept(s)
    ensures ExitKept(Looked(l, s))
  {
  }

  lemma PopKeepsExit(l: Limits, s: State, result: Option<Item>)
    requires Enabled(l, s, Pop(result)) && ExitKept(s)
    ensures ExitKept(Apply(l, s, Pop(result)))
  {
  }

  lemma DispatcherKeepsExit(l: Limits, s: State, a: Action)
    requires Enabled(l, s, a) && !a.Work? && !a.Look? && !a.Pop? && ExitKept(s)
    ensures ExitKept(Apply(l, s, a))
  {
  }

  lemma {:induction false} ExitKeptAlways(l: Limits, states: seq<State>, actions: seq<Action>, pages: int, urls: int)
    requires Run(l, states, actions, pages, urls)
    ensures forall s :: s in states ==> ExitKept(s)
  {
    if actions != [] {
      var n := |actions| - 1;
      ExitKeptAlways(l, states[..n + 1], actions[..n], pages, urls);
      EveryStateAccounted(l, states, actions, pages, urls);
      var s, a, t := states[n], actions[n], states[n + 1];
      assert s in states[..n + 1] && s in states;
      if a.Work? {
        WorkKeepsExit(l, s, a.i, a.step, t);
      } else if a.Look? {
        LookKeepsExit(l, s);
      } else if a.Pop? {
        PopKeepsExit(l, s, a.result);
      } else {
        DispatcherKeepsExit(l, s, a);
      }
      assert states == states[..n + 1] + [states[n + 1]];
    }
  }

  /** From the moment a run decides on a clean exit the channels are empty, nobody holds an item, and
      every dispatched item has left exactly once. Below the page limit all that is on the frontier was
      pushed after the dispatcher had read its length, and before it read `inFlight` as zero. */
  lemma CleanExitLeaves(l: Limits, states: seq<State>, actions: seq<Action>, pages: int, urls: int, s: State)
    requires Run(l, states, actions, pages, urls) && s in states && CleanExit(s.disp)
    ensures s.fetchQueue == [] && s.fetchResults == [] && s.persistQueue == []
    ensures forall i: nat :: i < |s.workers| ==> !Busy(s.workers[i])
    ensures s.left == s.dispatched
    ensures !s.disp.reached ==> s.frontier.items == s.late
  {
    ExitKeptAlways(l, states, actions, pages, urls);
    EveryStateAccounted(l, states, actions, pages, urls);
    assert ExitKept(s) && Accounted(s);
    forall i: nat | i < |s.workers| ensures !Busy(s.workers[i]) {
      InsideZero(s, i);
    }
    InsideZero(s, |s.workers|);
    forall item ensures s.left[item] == s.dispatched[item] {
      assert Balanced(s, item);
      InsidePart(item, s);
    }
  }

  // ---------- What an error means ----------

  lemma CancelIsForGood(l: Limits, s: State, i: nat, step: Step)
    requires StepEnabled(l, s, i, step)
    ensures s.cancelled ==> Worked(l, s, i, step).cancelled
  {
  }

  ghost predicate ErrorKept(s: State) {
    (s.disp.Draining? || s.disp.Returned?) && !s.disp.clean ==> s.cancelled
  }

  lemma DispatcherKeepsError(l: Limits, s: State, a: Action)
    requires Enabled(l, s, a) && !a.Work? && ErrorKept(s)
    ensures ErrorKept(Apply(l, s, a))
  {
  }

  /** The pipeline returns an error only when the crawl was cancelled, from outside or by the persister. */
  lemma {:induction false} ErrorMeansCancelled(l: Limits, states: seq<State>, actions: seq<Action>, pages: int,
      urls: int)
    requires Run(l, states, actions, pages, urls)
    ensures forall s :: s in states ==> ErrorKept(s)
  {
    if actions != [] {
      var n := |actions| - 1;
      ErrorMeansCancelled(l, states[..n + 1], actions[..n], pages, urls);
      var s, a, t := states[n], actions[n], states[n + 1];
      assert s in states[..n + 1];
      if a.Work? {
        CancelIsForGood(l, s, a.i, a.step);
        if TakesSendsOrLeaves(a.step) {
          MovingIsQuiet(l, s, a.i, a.step, t);
        } else {
          OtherStepsStay(l, s, a.i, a.step, t);
        }
      } else {
        DispatcherKeepsError(l, s, a);
      }
      assert states == states[..n + 1] + [states[n + 1]];
    }
  }

  // ---------- Never stuck ----------

  /** Workers do their own kind of work, and leave only when cancelled or when their channel is closed. */
  predicate RoleOk(l: Limits, s: State, i: nat, w: Worker) {
    && (IsFetcher(l, i) ==> w.Idle? || w.Gone? || w.Got? || w.Onboarding? || w.Ready? || w.Fetched?)
    && (IsParser(l, i) ==>
        w.Idle? || w.Gone? || w.Parsing? || w.Expanding? || w.Checked? || w.Loaded? || w.Reserved? || w.Parsed?)
    && (IsPersister(l, i) ==> w.Idle? || w.Gone? || w.Persisting? || w.Failing?)
    && (w.Gone? ==> s.cancelled || InboxClosed(l, s, i))
  }

  ghost predicate RolesKept(l: Limits, s: State) {
    && |s.workers| == l.fetchers + PARSERS + 1
    && (forall i: nat :: i < |s.workers| ==> RoleOk(l, s, i, s.workers[i]))
    && (s.disp.Draining? ==> 1 <= s.disp.closed <= 3)
  }

  lemma MovingKeepsRole(l: Limits, s: State, i: nat, step: Step)
    requires StepEnabled(l, s, i, step) && i < l.fetchers + PARSERS + 1
    requires RoleOk(l, s, i, s.workers[i]) && TakesSendsOrLeaves(step)
    ensures RoleOk(l, s, i, Worked(l, s, i, step).workers[i])
  {
  }

  lemma OthersKeepRole(l: Limits, s: State, i: nat, step: Step)
    requires StepEnabled(l, s, i, step) && !TakesSendsOrLeaves(step)
    requires RoleOk(l, s, i, s.workers[i])
    ensures RoleOk(l, Worked(l, s, i, step), i, Worked(l, s, i, step).workers[i])
  {
  }

  lemma WorkKeepsRoles(l: Limits, s: State, i: nat, step: Step, t: State)
    requires StepEnabled(l, s, i, step) && t == Worked(l, s, i, step) && RolesKept(l, s)
    ensures RolesKept(l, t)
  {
    assert RoleOk(l, s, i, s.workers[i]);
    CancelIsForGood(l, s, i, step);
    if TakesSendsOrLeaves(step) {
      MovingKeepsRole(l, s, i, step);
      MovingIsQuiet(l, s, i, step, t);
    } else {
      OthersKeepRole(l, s, i, step);
      OtherStepsStay(l, s, i, step, t);
    }
    forall k: nat | k < |t.workers| ensures RoleOk(l, t, k, t.workers[k]) {
      assert RoleOk(l, s, k, s.workers[k]);
    }
  }

  lemma DispatcherKeepsRoles(l: Limits, s: State, a: Action, t: State)
    requires Enabled(l, s, a) && !a.Work? && t == Apply(l, s, a) && RolesKept(l, s)
    ensures RolesKept(l, t)
  {
    DispatcherIsQuiet(l, s, a, t);
    ClosedForGood(l, s, a, t);
    forall k: nat | k < |t.workers| ensures RoleOk(l, t, k, t.workers[k]) {
      assert RoleOk(l, s, k, s.workers[k]);
    }
  }

  lemma ClosedForGood(l: Limits, s: State, a: Action, t: State)
    requires Enabled(l, s, a) && !a.Work? && t == Apply(l, s, a)
    requires s.disp.Draining? ==> 1 <= s.disp.closed <= 3
    ensures forall k: nat :: InboxClosed(l, s, k) ==> InboxClosed(l, t, k)
    ensures s.cancelled ==> t.cancelled
    ensures t.disp.Draining? ==> 1 <= t.disp.closed <= 3
  {
  }

  lemma {:induction false} RolesKeptAlways(l: Limits, states: seq<State>, actions: seq<Action>, pages: int, urls: int)
    requires Run(l, states, actions, pages, urls)
    ensures forall s :: s in states ==> RolesKept(l, s)
  {
    if actions == [] {
      assert forall i: nat :: i < |states[0].workers| ==> states[0].workers[i] in states[0].workers;
    } else {
      var n := |actions| - 1;
      RolesKeptAlways(l, states[..n + 1], actions[..n], pages, urls);
      var s, a, t := states[n], actions[n], states[n + 1];
      assert s in states[..n + 1];
      if a.Work? {
        WorkKeepsRoles(l, s, a.i, a.step, t);
      } else {
        DispatcherKeepsRoles(l, s, a, t);
      }
      assert states == states[..n + 1] + [states[n + 1]];
    }
  }

  /** A step of the pipeline itself; the dispatcher's timer does not count while items are in flight. */
  predicate Progress(s: State, a: Action) {
    a != Cancel && (a.Wake? ==> s.inFlight == 0)
  }

  ghost predicate CanMove(l: Limits, s: State) {
    exists a :: Progress(s, a) && Enabled(l, s, a)
  }

  lemma Moves(l: Limits, s: State, a: Action)
    requires Progress(s, a) && Enabled(l, s, a)
    ensures CanMove(l, s)
  {
  }

  predicate HasWork(l: Limits, s: State, i: nat) {
    i < |s.workers| && !s.workers[i].Gone? && (!s.workers[i].Idle? || Inbox(l, s, i) != [] || InboxClosed(l, s, i))
  }

  lemma IdleMoves(l: Limits, s: State, i: nat)
    requires HasWork(l, s, i) && s.workers[i].Idle?
    ensures CanMove(l, s)
  {
    Moves(l, s, Work(i, if Inbox(l, s, i) != [] then Take else Quit));
  }

  lemma PersisterMoves(l: Limits, s: State, i: nat)
    requires IsPersister(l, i) && HasWork(l, s, i) && RoleOk(l, s, i, s.workers[i])
    ensures CanMove(l, s)
  {
    match s.workers[i]
    case Idle => IdleMoves(l, s, i);
    case Persisting(_) => Moves(l, s, Work(i, Persist));
    case Failing => Moves(l, s, Work(i, CancelAll));
  }

  lemma ParserMoves(l: Limits, s: State, i: nat)
    requires RolesKept(l, s) && IsParser(l, i) && HasWork(l, s, i)
    requires s.cancelled || !InboxClosed(l, s, l.fetchers + PARSERS)
    ensures CanMove(l, s)
  {
    assert RoleOk(l, s, i, s.workers[i]);
    match s.workers[i]
    case Idle => IdleMoves(l, s, i);
    case Parsing(_) => Moves(l, s, Work(i, CountPage));
    case Expanding(_, _) => Moves(l, s, Work(i, Expanded));
    case Checked(_, _, _) => Moves(l, s, Work(i, Load));
    case Loaded(_, _, _, _) => Moves(l, s, Work(i, Swap));
    case Reserved(_, _, _) => Moves(l, s, Work(i, PushLink));
    case Parsed(_) =>
      if |s.persistQueue| < PERSIST_QUEUE {
        Moves(l, s, Work(i, Pass));
      } else if s.cancelled {
        Moves(l, s, Work(i, Abort));
      } else {
        assert RoleOk(l, s, l.fetchers + PARSERS, s.workers[l.fetchers + PARSERS]);
        PersisterMoves(l, s, l.fetchers + PARSERS);
      }
  }

  lemma FetcherMoves(l: Limits, s: State, i: nat)
    requires RolesKept(l, s) && IsFetcher(l, i) && HasWork(l, s, i)
    requires s.cancelled || (!InboxClosed(l, s, l.fetchers) && !InboxClosed(l, s, l.fetchers + PARSERS))
    ensures CanMove(l, s)
  {
    assert RoleOk(l, s, i, s.workers[i]);
    match s.workers[i]
    case Idle => IdleMoves(l, s, i);
    case Got(item) =>
      if Known(l, item, s.hosts) {
        Moves(l, s, Work(i, HostKnown));
      } else {
        Moves(l, s, Work(i, if RoomForHost(l, s) then MarkHost(l.key(item).value) else Drop));
      }
    case Onboarding(_) => Moves(l, s, Work(i, Onboarded));
    case Ready(_) => Moves(l, s, Work(i, Fetch));
    case Fetched(_) =>
      if |s.fetchResults| < FETCH_RESULTS {
        Moves(l, s, Work(i, Pass));
      } else if s.cancelled {
        Moves(l, s, Work(i, Abort));
      } else {
        assert RoleOk(l, s, l.fetchers, s.workers[l.fetchers]);
        ParserMoves(l, s, l.fetchers);
      }
  }

  lemma {:induction false} SomeLeast(items: multiset<Item>)
    requires items != multiset{}
    ensures exists item :: IsLeast(items, item)
    decreases |items|
  {
    var item :| item in items;
    var rest := items - multiset{item};
    if rest == multiset{} {
      forall other | other in items ensures other == item {
        assert other != item ==> other in rest;
      }
      assert IsLeast(items, item);
    } else {
      SomeLeast(rest);
      var least :| IsLeast(rest, least);
      forall other | other in items ensures other in rest || other == item {}
      assert IsLeast(items, if item.depth <= least.depth then item else least);
    }
  }

  lemma DrainingMoves(l: Limits, s: State)
    requires RolesKept(l, s) && s.disp.Draining?
    ensures CanMove(l, s)
  {
    if StageDone(l, s, s.disp.closed) {
      Moves(l, s, Close);
    } else if s.disp.closed == 1 {
      var i: nat :| i < |s.workers| && IsFetcher(l, i) && !s.workers[i].Gone?;
      FetcherMoves(l, s, i);
    } else if s.disp.closed == 2 {
      var i: nat :| i < |s.workers| && IsParser(l, i) && !s.workers[i].Gone?;
      ParserMoves(l, s, i);
    } else {
      var i: nat :| i < |s.workers| && IsPersister(l, i) && !s.workers[i].Gone?;
      assert RoleOk(l, s, i, s.workers[i]);
      PersisterMoves(l, s, i);
    }
  }

  lemma {:induction false} SomeBusy(workers: seq<Worker>) returns (i: nat)
    requires InWorkers(Everything, workers) > 0
    ensures i < |workers| && Busy(workers[i])
  {
    i := |workers| - 1;
    if !Busy(workers[i]) {
      i := SomeBusy(workers[..i]);
    }
  }

  lemma BusyMoves(l: Limits, s: State, i: nat)
    requires RolesKept(l, s) && HasWork(l, s, i) && !s.disp.Draining? && !s.disp.Returned?
    ensures CanMove(l, s)
  {
    if IsFetcher(l, i) {
      FetcherMoves(l, s, i);
    } else if IsParser(l, i) {
      ParserMoves(l, s, i);
    } else {
      assert RoleOk(l, s, i, s.workers[i]);
      PersisterMoves(l, s, i);
    }
  }

  lemma SleepingMoves(l: Limits, s: State)
    requires RolesKept(l, s) && Counted(s) && s.disp.Sleeping? && l.fetchers >= 1
    ensures CanMove(l, s)
  {
    if s.inFlight == 0 {
      Moves(l, s, Wake);
    } else if s.cancelled {
      Moves(l, s, GiveUp);
    } else {
      var i: nat := if s.fetchQueue != [] then 0 else if s.fetchResults != [] then l.fetchers else l.fetchers + PARSERS;
      if s.fetchQueue == [] && s.fetchResults == [] && s.persistQueue == [] {
        i := SomeBusy(s.workers);
      }
      assert RoleOk(l, s, i, s.workers[i]);
      BusyMoves(l, s, i);
    }
  }

  /** In every interleaving, until the pipeline returns some goroutine of it can move: full channels, lost
      workers and cancellation never leave everybody waiting for everybody, nor the dispatcher ticking
      while nobody can move the items in flight. */
  lemma NeverStuck(l: Limits, states: seq<State>, actions: seq<Action>, pages: int, urls: int, s: State)
    requires Run(l, states, actions, pages, urls) && s in states && l.fetchers >= 1 && !s.disp.Returned?
    ensures CanMove(l, s)
  {
    RolesKeptAlways(l, states, actions, pages, urls);
    EveryStateAccounted(l, states, actions, pages, urls);
    assert RolesKept(l, s) && Accounted(s);
    match s.disp
    case Popping =>
      if s.frontier.items == multiset{} {
        Moves(l, s, Pop(None));
      } else {
        SomeLeast(s.frontier.items);
        var item :| IsLeast(s.frontier.items, item);
        Moves(l, s, Pop(Some(item)));
      }
    case Sending(_) =>
      if |s.fetchQueue| < FETCH_QUEUE {
        Moves(l, s, Send);
      } else if s.cancelled {
        Moves(l, s, GiveUp);
      } else {
        assert RoleOk(l, s, 0, s.workers[0]);
        FetcherMoves(l, s, 0);
      }
    case Sleeping => SleepingMoves(l, s);
    case Draining(_, _, _) => DrainingMoves(l, s);
    case _ => Moves(l, s, Look);
  }
}
