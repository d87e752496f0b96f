/** Moving the pipeline one step, or a few, towards a state that a run is to reach. */
module PipelineMoves {
  import opened GoText
  import opened Frontier
  import opened Pipeline
  import opened PipelineAccounting
  import opened PipelineRuns

  /** A state that a stable claim holds of; with `Claim` as `Leads` one that some run reaches. */
  ghost predicate Reached(l: Limits, start: State, c: Claim, s: State) {
    Stable(l, start, c) && c.holds(s) && Counted(s)
  }

  lemma CountedStep(l: Limits, s: State, a: Action, t: State)
    requires Counted(s) && Follows(l, s, a, t)
    ensures Counted(t)
  {
    StepFlows(Everything, l, s, a, t);
    StepRecords(l, s, a, t, Item(0, "", "", 0));
  }

  lemma Go(l: Limits, start: State, c: Claim, s: State, a: Action, t: State)
    requires Reached(l, start, c, s) && Follows(l, s, a, t)
    ensures Reached(l, start, c, t)
  {
    CountedStep(l, s, a, t);
  }

  // ---------- The dispatcher ----------

  /** The dispatcher pops a least item, counts it and sends it. */
  lemma DispatcherSends(l: Limits, start: State, c: Claim, s: State, item: Item) returns (t: State)
    requires Reached(l, start, c, s)
    requires s.disp == Popping && IsLeast(s.frontier.items, item) && |s.fetchQueue| < FETCH_QUEUE
    ensures Reached(l, start, c, t)
    ensures t == s.(disp := ReadPages, frontier := s.frontier.(items := s.frontier.items - multiset{item}),
                    dispatched := t.dispatched, inFlight := s.inFlight + 1, fetchQueue := s.fetchQueue + [item])
  {
    var f := s.frontier.(items := s.frontier.items - multiset{item});
    var s1 := s.(disp := Counting(item), frontier := f, dispatched := s.dispatched + multiset{item});
    Go(l, start, c, s, Pop(Some(item)), s1);
    var s2 := s1.(disp := Sending(item), inFlight := s1.inFlight + 1);
    Go(l, start, c, s1, Look, s2);
    t := s2.(disp := ReadPages, fetchQueue := s2.fetchQueue + [item]);
    Go(l, start, c, s2, Send, t);
  }

  /** Both reads of the dispatcher let it go on. */
  lemma DispatcherGoesOn(l: Limits, start: State, c: Claim, s: State)
    requires Reached(l, start, c, s) && s.disp == ReadPages
    requires l.maxPages > 0 ==> s.pages + s.inFlight < l.maxPages
    ensures Reached(l, start, c, s.(disp := Popping))
  {
    Go(l, start, c, s, Look, Looked(l, s));
    if l.maxPages > 0 {
      var s1 := s.(disp := ReadInFlight(s.pages));
      Go(l, start, c, s1, Look, Looked(l, s1));
    }
  }

  // ---------- The fetchers ----------

  lemma FetcherTakes(l: Limits, start: State, c: Claim, s: State, i: nat)
    requires Reached(l, start, c, s)
    requires i < |s.workers| && IsFetcher(l, i) && s.workers[i].Idle? && s.fetchQueue != []
    ensures var t := s.(fetchQueue := s.fetchQueue[1..], workers := s.workers[i := Got(s.fetchQueue[0])]);
            Reached(l, start, c, t)
  {
    Go(l, start, c, s, Work(i, Take), Worked(l, s, i, Take));
  }

  lemma FetcherKnowsHost(l: Limits, start: State, c: Claim, s: State, i: nat)
    requires Reached(l, start, c, s)
    requires i < |s.workers| && s.workers[i].Got? && Known(l, s.workers[i].item, s.hosts)
    ensures var t := s.(workers := s.workers[i := Ready(s.workers[i].item)]); Reached(l, start, c, t)
  {
    Go(l, start, c, s, Work(i, HostKnown), Worked(l, s, i, HostKnown));
  }

  /** The fetcher marks the host of its item and has it onboarded. */
  lemma FetcherMarks(l: Limits, start: State, c: Claim, s: State, i: nat, host: string)
    requires Reached(l, start, c, s) && RoomForHost(l, s)
    requires i < |s.workers| && s.workers[i].Got? && l.key(s.workers[i].item) == Some(host) && host !in s.hosts
    ensures var t := s.(hosts := s.hosts + {host}, workers := s.workers[i := Ready(s.workers[i].item)]);
            Reached(l, start, c, t)
  {
    var s1 := Worked(l, s, i, MarkHost(host));
    Go(l, start, c, s, Work(i, MarkHost(host)), s1);
    Go(l, start, c, s1, Work(i, Onboarded), Worked(l, s1, i, Onboarded));
    assert s1.workers[i := Ready(s.workers[i].item)] == s.workers[i := Ready(s.workers[i].item)];
  }

  /** The fetcher drops an item, say because robots.txt forbids it. */
  lemma FetcherDrops(l: Limits, start: State, c: Claim, s: State, i: nat)
    requires Reached(l, start, c, s)
    requires i < |s.workers| && s.workers[i].Ready?
    ensures Reached(l, start, c, Leave(s, i, Idle))
  {
    Go(l, start, c, s, Work(i, Drop), Worked(l, s, i, Drop));
  }

  lemma FetcherFetches(l: Limits, start: State, c: Claim, s: State, i: nat)
    requires Reached(l, start, c, s)
    requires i < |s.workers| && s.workers[i].Ready?
    ensures var t := s.(workers := s.workers[i := Fetched(s.workers[i].item)]); Reached(l, start, c, t)
  {
    Go(l, start, c, s, Work(i, Fetch), Worked(l, s, i, Fetch));
  }

  lemma FetcherPasses(l: Limits, start: State, c: Claim, s: State, i: nat)
    requires Reached(l, start, c, s)
    requires i < |s.workers| && s.workers[i].Fetched? && |s.fetchResults| < FETCH_RESULTS
    ensures var t := s.(workers := s.workers[i := Idle], fetchResults := s.fetchResults + [s.workers[i].item]);
            Reached(l, start, c, t)
  {
    Go(l, start, c, s, Work(i, Pass), Worked(l, s, i, Pass));
  }

  // ---------- The parsers ----------

  lemma ParserTakes(l: Limits, start: State, c: Claim, s: State, i: nat)
    requires Reached(l, start, c, s)
    requires i < |s.workers| && IsParser(l, i) && s.workers[i].Idle? && s.fetchResults != []
    ensures var t := s.(fetchResults := s.fetchResults[1..], workers := s.workers[i := Parsing(s.fetchResults[0])]);
            Reached(l, start, c, t)
  {
    Go(l, start, c, s, Work(i, Take), Worked(l, s, i, Take));
  }

  lemma ParserEnds(l: Limits, start: State, c: Claim, s: State, i: nat)
    requires Reached(l, start, c, s)
    requires i < |s.workers| && s.workers[i].Expanding?
    ensures var t := s.(workers := s.workers[i := Parsed(s.workers[i].item)]); Reached(l, start, c, t)
  {
    Go(l, start, c, s, Work(i, Expanded), Worked(l, s, i, Expanded));
  }

  lemma ParserCounts(l: Limits, start: State, c: Claim, s: State, i: nat) returns (t: State)
    requires Reached(l, start, c, s)
    requires i < |s.workers| && s.workers[i].Parsing?
    ensures Reached(l, start, c, t) && t.workers == s.workers[i := Parsed(s.workers[i].item)]
    ensures t == s.(pages := s.pages + 1, ranked := t.ranked, workers := t.workers)
  {
    var item := s.workers[i].item;
    t := Worked(l, s, i, CountPage);
    Go(l, start, c, s, Work(i, CountPage), t);
    if t.workers[i].Expanding? {
      ParserEnds(l, start, c, t, i);
      t := t.(workers := t.workers[i := Parsed(item)]);
    }
    assert t.workers == s.workers[i := Parsed(item)];
  }

  lemma ParserSkips(l: Limits, start: State, c: Claim, s: State, i: nat)
    requires Reached(l, start, c, s)
    requires i < |s.workers| && s.workers[i].Parsing?
    ensures var t := s.(workers := s.workers[i := Parsed(s.workers[i].item)]); Reached(l, start, c, t)
  {
    Go(l, start, c, s, Work(i, NotAPage), Worked(l, s, i, NotAPage));
  }

  /** The parser finds a page, or something else. */
  lemma ParserReads(l: Limits, start: State, c: Claim, s: State, i: nat, page: bool) returns (t: State)
    requires Reached(l, start, c, s)
    requires i < |s.workers| && s.workers[i].Parsing?
    ensures Reached(l, start, c, t) && t.workers == s.workers[i := Parsed(s.workers[i].item)]
    ensures t == s.(pages := s.pages + (if page then 1 else 0), ranked := t.ranked, workers := t.workers)
  {
    if page {
      t := ParserCounts(l, start, c, s, i);
    } else {
      ParserSkips(l, start, c, s, i);
      t := s.(workers := s.workers[i := Parsed(s.workers[i].item)]);
    }
  }

  lemma ParserPasses(l: Limits, start: State, c: Claim, s: State, i: nat) returns (t: State)
    requires Reached(l, start, c, s)
    requires i < |s.workers| && s.workers[i].Parsed? && |s.persistQueue| < PERSIST_QUEUE
    ensures Reached(l, start, c, t)
    ensures t == s.(workers := s.workers[i := Idle], persistQueue := s.persistQueue + [s.workers[i].item])
  {
    t := s.(workers := s.workers[i := Idle], persistQueue := s.persistQueue + [s.workers[i].item]);
    Go(l, start, c, s, Work(i, Pass), t);
  }

  // ---------- The persister ----------

  function PersisterTook(s: State, i: nat): State
    requires i < |s.workers| && s.persistQueue != []
  {
    s.(workers := s.workers[i := Persisting(s.persistQueue[0])], persistQueue := s.persistQueue[1..])
  }

  lemma PersisterTakes(l: Limits, start: State, c: Claim, s: State, i: nat)
    requires Reached(l, start, c, s)
    requires i < |s.workers| && IsPersister(l, i) && s.workers[i].Idle? && s.persistQueue != []
    ensures Reached(l, start, c, PersisterTook(s, i))
  {
    Go(l, start, c, s, Work(i, Take), PersisterTook(s, i));
  }

  function PersisterStored(s: State, i: nat): State
    requires i < |s.workers| && s.workers[i].Persisting?
  {
    Leave(s, i, Idle)
  }

  lemma PersisterStores(l: Limits, start: State, c: Claim, s: State, i: nat)
    requires Reached(l, start, c, s)
    requires i < |s.workers| && s.workers[i].Persisting?
    ensures Reached(l, start, c, PersisterStored(s, i))
  {
    Go(l, start, c, s, Work(i, Persist), PersisterStored(s, i));
  }

  // ---------- Closing down ----------

  /** Nothing waits in a channel, and every worker is idle or gone. */
  predicate AtRest(s: State) {
    && s.fetchQueue == [] && s.fetchResults == [] && s.persistQueue == []
    && forall w :: w in s.workers ==> w.Idle? || w.Gone?
  }

  /** Nothing but the workers and the dispatcher has changed. */
  predicate SameCrawl(s: State, t: State) {
    t == s.(disp := t.disp, workers := t.workers)
  }

  /** Once its channel is closed every worker below `n` that reads from it leaves. */
  lemma {:induction false} StageQuits(l: Limits, start: State, c: Claim, s: State, closed: nat, reached: bool,
      n: nat) returns (t: State)
    requires Reached(l, start, c, s) && AtRest(s) && n <= |s.workers|
    requires s.disp == Draining(closed, true, reached) && 1 <= closed <= 3
    ensures Reached(l, start, c, t) && AtRest(t) && SameCrawl(s, t) && t.disp == s.disp && |t.workers| == |s.workers|
    ensures forall i: nat :: i < n && ReadsFrom(l, closed, i) ==> t.workers[i].Gone?
  {
    t := s;
    if n > 0 {
      t := StageQuits(l, start, c, s, closed, reached, n - 1);
      if ReadsFrom(l, closed, n - 1) && t.workers[n - 1].Idle? {
        var t' := t.(workers := t.workers[n - 1 := Gone]);
        Go(l, start, c, t, Work(n - 1, Quit), t');
        t := t';
      }
    }
  }

  lemma StageCloses(l: Limits, start: State, c: Claim, s: State, closed: nat, reached: bool) returns (t: State)
    requires Reached(l, start, c, s) && AtRest(s)
    requires s.disp == Draining(closed, true, reached) && 1 <= closed <= 3
    ensures Reached(l, start, c, t) && AtRest(t) && SameCrawl(s, t)
    ensures t.disp == if closed == 3 then Returned(true, reached) else Draining(closed + 1, true, reached)
  {
    var s1 := StageQuits(l, start, c, s, closed, reached, |s.workers|);
    t := s1.(disp := if closed == 3 then Returned(true, reached) else Draining(closed + 1, true, reached));
    Go(l, start, c, s1, Close, t);
  }

  /** With nothing in flight, the dispatcher's last read ends the crawl. */
  lemma EndsCleanly(l: Limits, start: State, c: Claim, s: State, reached: bool) returns (t: State)
    requires Reached(l, start, c, s) && AtRest(s) && s.disp == ExitZero(reached) && s.inFlight == 0
    ensures Reached(l, start, c, t) && SameCrawl(s, t) && t.disp == Returned(true, reached)
  {
    t := s.(disp := Draining(1, true, reached));
    Go(l, start, c, s, Look, t);
    t := StageCloses(l, start, c, t, 1, reached);
    t := StageCloses(l, start, c, t, 2, reached);
    t := StageCloses(l, start, c, t, 3, reached);
  }
}
