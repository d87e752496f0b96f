/** The crawl can stop short of its page limit, with URLs left: the dispatcher adds pages and items in flight when it
    tests the limit, but an item in flight need not become a page, or may have been counted as one already. */
module PipelineShortfall {
  import opened Frontier
  import opened Pipeline
  import opened PipelineAccounting
  import opened PipelineExit
  import opened PipelineMoves
  import opened PipelineOvershoot
  import opened PipelinePages
  import opened PipelineRuns

  // ---------- How far short at most ----------

  /** Everything that fits into channels and workers. */
  function AllThatFits(l: Limits): nat {
    Capacity(l) + PERSIST_QUEUE + 1
  }

  lemma {:induction false} AtMostOneEach(workers: seq<Worker>)
    ensures InWorkers(Everything, workers) <= |workers|
  {
    if workers != [] {
      AtMostOneEach(workers[..|workers| - 1]);
    }
  }

  lemma InFlightFits(l: Limits, s: State)
    requires ChannelsFit(s) && Counted(s) && |s.workers| == l.fetchers + PARSERS + 1
    requires !s.disp.Counting? && !s.disp.Sending?
    ensures s.inFlight <= AllThatFits(l)
  {
    AtMostOneEach(s.workers);
    InChannelPart(Item(0, "", "", 0), s.fetchQueue);
    InChannelPart(Item(0, "", "", 0), s.fetchResults);
    InChannelPart(Item(0, "", "", 0), s.persistQueue);
  }

  /** The dispatcher takes the limit for met. */
  predicate TakenForMet(d: Dispatcher) {
    (d.ExitLen? || d.ExitZero? || d.Draining? || d.Returned?) && d.reached
  }

  ghost predicate ShortKept(l: Limits, s: State, start: int) {
    && s.pages >= start
    && (s.disp.ExitInFlight? ==> l.maxPages > 0 && s.disp.pages <= s.pages)
    && (TakenForMet(s.disp) ==> l.maxPages > 0 && l.maxPages - s.pages <= AllThatFits(l))
  }

  lemma LookKeepsShort(l: Limits, s: State, start: int)
    requires Looks(s.disp) && ShortKept(l, s, start) && (s.disp.ExitInFlight? ==> s.inFlight <= AllThatFits(l))
    ensures ShortKept(l, Looked(l, s), start)
  {
  }

  lemma OthersKeepShort(l: Limits, s: State, a: Action, start: int)
    requires Enabled(l, s, a) && !a.Look? && !a.Work? && ShortKept(l, s, start)
    ensures ShortKept(l, Apply(l, s, a), start)
  {
  }

  lemma StepKeepsShort(l: Limits, s: State, a: Action, t: State, start: int)
    requires Enabled(l, s, a) && t == Apply(l, s, a) && ShortKept(l, s, start)
    requires ChannelsFit(s) && Counted(s) && |s.workers| == l.fetchers + PARSERS + 1
    ensures ShortKept(l, t, start)
  {
    PagesAfter(l, s, a, t);
    if a.Look? {
      if s.disp.ExitInFlight? {
        InFlightFits(l, s);
      }
      LookKeepsShort(l, s, start);
    } else if !a.Work? {
      OthersKeepShort(l, s, a, start);
    }
  }

  lemma {:induction false} ShortKeptAlways(l: Limits, states: seq<State>, actions: seq<Action>, pages: int, urls: int)
    requires Run(l, states, actions, pages, urls)
    ensures forall s :: s in states ==> ShortKept(l, s, pages)
  {
    if actions != [] {
      var n := |actions| - 1;
      ShortKeptAlways(l, states[..n + 1], actions[..n], pages, urls);
      ChannelsAlwaysFit(l, states, actions, pages, urls);
      EveryStateAccounted(l, states, actions, pages, urls);
      RolesKeptAlways(l, states, actions, pages, urls);
      var s := states[n];
      assert s in states[..n + 1] && s in states;
      assert Accounted(s) && RolesKept(l, s);
      StepKeepsShort(l, s, actions[n], states[n + 1], pages);
      assert states == states[..n + 1] + [states[n + 1]];
    }
  }

  /** In every interleaving: where the dispatcher takes the page limit for met, no more pages are missing than
      items fit into channels and workers. */
  lemma ShortfallBound(l: Limits, states: seq<State>, actions: seq<Action>, pages: int, urls: int, s: State)
    requires Run(l, states, actions, pages, urls) && s in states && TakenForMet(s.disp)
    ensures l.maxPages > 0 && s.pages >= pages && l.maxPages - s.pages <= AllThatFits(l)
  {
    ShortKeptAlways(l, states, actions, pages, urls);
    assert ShortKept(l, s, pages);
  }

  // ---------- Filling everything ----------

  /** Items go on to the persister as far as it has room, and it takes one. */
  ghost predicate Packed(l: Limits, s: State)
    requires s.workers != []
  {
    && (s.inFlight == Behind(s) || Behind(s) == PERSIST_QUEUE + 1)
    && (s.workers[|s.workers| - 1].Idle? ==> s.persistQueue == [])
  }

  lemma PersisterBegins(l: Limits, start: State, c: Claim, s: State, depth: int) returns (t: State)
    requires Stable(l, start, c) && Steady(l, c, s, depth)
    ensures Steady(l, c, t, depth) && Behind(t) == Behind(s)
    ensures t == s.(workers := t.workers, persistQueue := t.persistQueue)
    ensures t.workers[|t.workers| - 1].Idle? ==> t.persistQueue == []
  {
    var n := l.fetchers + PARSERS;
    t := s;
    if s.workers[n].Idle? && s.persistQueue != [] {
      PersisterTakes(l, start, c, s, n);
      t := PersisterTook(s, n);
    }
  }

  /** One more item enters, and moves on to the persister while there is room. */
  lemma Cram(l: Limits, start: State, c: Claim, s: State, depth: int) returns (t: State)
    requires Stable(l, start, c) && Steady(l, c, s, depth) && s.disp == ReadPages && s.frontier.items != multiset{}
    requires Packed(l, s) && l.maxPages > 0 && s.pages + s.inFlight < l.maxPages && s.inFlight < AllThatFits(l)
    ensures Steady(l, c, t, depth) && t.disp == ReadPages && Packed(l, t)
    ensures t.pages == s.pages && t.inFlight == s.inFlight + 1 && |t.frontier.items| == |s.frontier.items| - 1
  {
    t := Round(l, start, c, s, depth, 0);
    if Behind(s) <= PERSIST_QUEUE {
      t := MoveOne(l, start, c, t, depth, false);
      t := PersisterBegins(l, start, c, t, depth);
    }
  }

  lemma {:induction false} CramSome(l: Limits, start: State, c: Claim, s: State, depth: int, n: nat) returns (t: State)
    requires Stable(l, start, c) && Steady(l, c, s, depth) && s.disp == ReadPages && n <= |s.frontier.items|
    requires Packed(l, s) && l.maxPages > 0 && s.pages + s.inFlight + n <= l.maxPages
    requires s.inFlight + n <= AllThatFits(l)
    ensures Steady(l, c, t, depth) && t.disp == ReadPages
    ensures t.pages == s.pages && t.inFlight == s.inFlight + n && |t.frontier.items| == |s.frontier.items| - n
    decreases n
  {
    t := s;
    if n > 0 {
      t := Cram(l, start, c, s, depth);
      t := CramSome(l, start, c, t, depth, n - 1);
    }
  }

  // ---------- The end ----------

  /** Pages and items in flight together meet the limit, so the dispatcher takes it for met. */
  lemma ReadsLimit(l: Limits, start: State, c: Claim, s: State)
    requires Reached(l, start, c, s) && s.disp == ReadPages && l.maxPages > 0 && s.pages + s.inFlight >= l.maxPages
    ensures Reached(l, start, c, s.(disp := ExitZero(true), late := multiset{}))
  {
    var s1, s2, s3, s4 := s.(disp := ReadInFlight(s.pages)), s.(disp := ExitPages), s.(disp := ExitInFlight(s.pages)),
      s.(disp := ExitLen(true));
    Go(l, start, c, s, Look, s1);
    Go(l, start, c, s1, Look, s2);
    Go(l, start, c, s2, Look, s3);
    Go(l, start, c, s3, Look, s4);
    Go(l, start, c, s4, Look, s.(disp := ExitZero(true), late := multiset{}));
  }

  /** Everything in flight is stored without being a page. */
  lemma {:induction false} StoreAll(l: Limits, start: State, c: Claim, s: State, depth: int, n: nat) returns (t: State)
    requires Stable(l, start, c) && Steady(l, c, s, depth) && !s.disp.Counting? && !s.disp.Sending? && s.inFlight == n
    ensures Steady(l, c, t, depth) && t.inFlight == 0
    ensures t.pages == s.pages && t.disp == s.disp && t.frontier == s.frontier
    decreases n
  {
    t := s;
    if n > 0 {
      if Behind(s) == 0 {
        t := MoveOne(l, start, c, s, depth, false);
      }
      t := StoreOne(l, start, c, t, depth);
      t := StoreAll(l, start, c, t, depth, n - 1);
    }
  }

  lemma CalmAtRest(l: Limits, s: State)
    requires Calm(l, s) && Counted(s) && s.inFlight == 0 && !s.disp.Counting? && !s.disp.Sending?
    ensures AtRest(s)
  {
    InsideZero(s, |s.workers|);
    forall w | w in s.workers ensures w.Idle? {
      var i: nat :| i < |s.workers| && s.workers[i] == w;
      InsideZero(s, i);
      assert CalmWorker(l, i, w);
    }
  }

  /** The run: climb to `short` pages below the limit, fill the pipeline with as many items, let the dispatcher take
      the limit for met, and let the items leave without becoming pages. */
  lemma ShortRun(l: Limits, start: State, c: Claim, depth: int, short: nat) returns (s: State)
    requires Stable(l, start, c) && l.fetchers >= 1 && start.pages <= l.maxPages && l.maxPages > 0
    requires Plenty(l, start, depth, l.maxPages - start.pages + 1)
    requires short <= l.maxPages - start.pages && short <= AllThatFits(l)
    ensures c.holds(s) && s.disp == Returned(true, true) && s.pages == l.maxPages - short
    ensures s.frontier.items != multiset{}
  {
    StartIsSteady(l, start, c, depth, l.maxPages - start.pages + 1);
    s := Climb(l, start, c, start, depth, l.maxPages - short - start.pages);
    CalmAtRest(l, s);
    assert s.workers[|s.workers| - 1] in s.workers;
    NothingGone(l, s);
    s := CramSome(l, start, c, s, depth, short);
    ReadsLimit(l, start, c, s);
    s := s.(disp := ExitZero(true), late := multiset{});
    s := StoreAll(l, start, c, s, depth, s.inFlight);
    CalmAtRest(l, s);
    s := EndsCleanly(l, start, c, s, true);
  }

  lemma NothingGone(l: Limits, s: State)
    requires Calm(l, s) && AtRest(s) && s.inFlight == 0
    ensures Packed(l, s) && Behind(s) == 0
  {
    var n := |s.workers| - 1;
    assert CalmWorker(l, n, s.workers[n]) && s.workers[n] in s.workers;
  }

  /** With enough to crawl, the pipeline can return cleanly, with URLs left and `short` pages missing to the limit, if
      and only if so many were missing at the start and so many items fit into channels and workers. With none
      missing this is the ordinary end at the limit. */
  lemma ShortfallExactly(l: Limits, start: State, depth: int, short: nat)
    requires l.fetchers >= 1 && start.pages <= l.maxPages && l.maxPages > 0
    requires Plenty(l, start, depth, l.maxPages - start.pages + 1)
    ensures (exists s :: Leads(l, start, s) && s.disp == Returned(true, true) && s.pages == l.maxPages - short
                         && s.frontier.items != multiset{})
       <==> short <= l.maxPages - start.pages && short <= AllThatFits(l)
  {
    if s :| Leads(l, start, s) && s.disp == Returned(true, true) && s.pages == l.maxPages - short
            && s.frontier.items != multiset{} {
      var states, actions :|
        Run(l, states, actions, start.pages, start.urls) && states[0] == start && states[|actions|] == s;
      ShortfallBound(l, states, actions, start.pages, start.urls, s);
    }
    if short <= l.maxPages - start.pages && short <= AllThatFits(l) {
      var c := LeadsIsStable(l, start);
      var s := ShortRun(l, start, c, depth, short);
    }
  }
}
