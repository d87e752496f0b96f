/** The page overshoot is exact: every overshoot that the bound admits is reached, for every limit, pool
    size and starting count, by a run that fills the pipeline and then lets ever longer windows pass
    between the dispatcher's two reads. */
module PipelineOvershoot {
  import opened Frontier
  import opened Pipeline
  import opened PipelineAccounting
  import opened PipelineMoves
  import opened PipelinePages
  import opened PipelineRuns

  // ---------- Calm states ----------

  /** A fetcher waits or has fetched, a parser waits or is about to parse, the persister waits or has an item. */
  predicate CalmWorker(l: Limits, i: nat, w: Worker) {
    w.Idle? || (IsFetcher(l, i) && w.Fetched?) || (IsParser(l, i) && w.Parsing?) || (IsPersister(l, i) && w.Persisting?)
  }

  ghost predicate Calm(l: Limits, s: State) {
    && |s.workers| == l.fetchers + PARSERS + 1 && l.fetchers >= 1
    && (forall i: nat :: i < |s.workers| ==> CalmWorker(l, i, s.workers[i]))
    && ChannelsFit(s)
  }

  /** How many items wait to be stored. */
  function Behind(s: State): nat
    requires s.workers != []
  {
    |s.persistQueue| + if s.workers[|s.workers| - 1].Idle? then 0 else 1
  }

  /** Behind the parsers `t` is as `s` is. */
  predicate SameBehind(s: State, t: State) {
    && |t.workers| == |s.workers| > 0 && t.persistQueue == s.persistQueue
    && t.workers[|t.workers| - 1] == s.workers[|s.workers| - 1]
  }

  /** All that waits to be fetched lies on known hosts and is equally deep. */
  ghost predicate Supplied(l: Limits, s: State, depth: int) {
    && (forall item :: item in s.frontier.items ==> Known(l, item, s.hosts) && item.depth == depth)
    && (forall i: nat :: i < |s.fetchQueue| ==> Known(l, s.fetchQueue[i], s.hosts))
  }

  ghost predicate Steady(l: Limits, c: Claim, s: State, depth: int) {
    c.holds(s) && Calm(l, s) && Supplied(l, s, depth) && Counted(s)
  }

  ghost predicate Alike(s: State, t: State) {
    && t.pages == s.pages && t.disp == s.disp && t.frontier == s.frontier && t.hosts == s.hosts
    && t.inFlight == s.inFlight && SameBehind(s, t)
  }

  // ---------- Moving one item forward ----------

  /** A waiting fetcher takes the next item and fetches it. */
  lemma FetchNext(l: Limits, start: State, c: Claim, s: State, depth: int, i: nat) returns (t: State)
    requires Stable(l, start, c) && Steady(l, c, s, depth)
    requires IsFetcher(l, i) && s.workers[i].Idle? && s.fetchQueue != []
    ensures Steady(l, c, t, depth) && Alike(s, t)
    ensures t.fetchQueue == s.fetchQueue[1..] && t.fetchResults == s.fetchResults
    ensures t.workers == s.workers[i := Fetched(s.fetchQueue[0])]
  {
    var item := s.fetchQueue[0];
    FetcherTakes(l, start, c, s, i);
    var s1 := s.(fetchQueue := s.fetchQueue[1..], workers := s.workers[i := Got(item)]);
    FetcherKnowsHost(l, start, c, s1, i);
    var s2 := s1.(workers := s1.workers[i := Ready(item)]);
    FetcherFetches(l, start, c, s2, i);
    t := s2.(workers := s2.workers[i := Fetched(item)]);
    assert t.workers == s.workers[i := Fetched(item)];
  }

  /** A fetcher hands on what it has fetched. */
  lemma PassResult(l: Limits, start: State, c: Claim, s: State, depth: int, i: nat) returns (t: State)
    requires Stable(l, start, c) && Steady(l, c, s, depth)
    requires i < |s.workers| && s.workers[i].Fetched? && |s.fetchResults| < FETCH_RESULTS
    ensures Steady(l, c, t, depth) && Alike(s, t)
    ensures t.fetchQueue == s.fetchQueue && t.fetchResults == s.fetchResults + [s.workers[i].item]
    ensures t.workers == s.workers[i := Idle]
  {
    FetcherPasses(l, start, c, s, i);
    t := s.(workers := s.workers[i := Idle], fetchResults := s.fetchResults + [s.workers[i].item]);
  }

  /** A waiting parser takes the next result. */
  lemma TakeResult(l: Limits, start: State, c: Claim, s: State, depth: int, i: nat) returns (t: State)
    requires Stable(l, start, c) && Steady(l, c, s, depth)
    requires IsParser(l, i) && s.workers[i].Idle? && s.fetchResults != []
    ensures Steady(l, c, t, depth) && Alike(s, t)
    ensures t.fetchQueue == s.fetchQueue && t.fetchResults == s.fetchResults[1..]
    ensures t.workers == s.workers[i := Parsing(s.fetchResults[0])]
  {
    ParserTakes(l, start, c, s, i);
    t := s.(workers := s.workers[i := Parsing(s.fetchResults[0])], fetchResults := s.fetchResults[1..]);
  }

  /** One item has passed the parsers, as a page or not. */
  ghost predicate OneParsed(s: State, t: State, page: bool) {
    && t.pages == s.pages + (if page then 1 else 0) && t.inFlight == s.inFlight
    && t.disp == s.disp && t.frontier == s.frontier && t.hosts == s.hosts
    && |t.workers| == |s.workers| > 0 && |t.persistQueue| == |s.persistQueue| + 1
    && t.workers[|t.workers| - 1] == s.workers[|s.workers| - 1]
  }

  lemma ParseOne(l: Limits, start: State, c: Claim, s: State, depth: int, i: nat, page: bool) returns (t: State)
    requires Stable(l, start, c) && Steady(l, c, s, depth) && IsParser(l, i) && s.workers[i].Parsing?
    requires |s.persistQueue| < PERSIST_QUEUE
    ensures Steady(l, c, t, depth) && OneParsed(s, t, page)
  {
    var s1 := ParserReads(l, start, c, s, i, page);
    t := ParserPasses(l, start, c, s1, i);
    assert t.workers == s.workers[i := Idle];
  }

  lemma ParseResult(l: Limits, start: State, c: Claim, s: State, depth: int, page: bool) returns (t: State)
    requires Stable(l, start, c) && Steady(l, c, s, depth) && s.fetchResults != [] && s.workers[l.fetchers].Idle?
    requires |s.persistQueue| < PERSIST_QUEUE
    ensures Steady(l, c, t, depth) && OneParsed(s, t, page)
  {
    var s1 := TakeResult(l, start, c, s, depth, l.fetchers);
    t := ParseOne(l, start, c, s1, depth, l.fetchers, page);
  }

  lemma ParseFetched(l: Limits, start: State, c: Claim, s: State, depth: int, i: nat, page: bool) returns (t: State)
    requires Stable(l, start, c) && Steady(l, c, s, depth) && s.fetchResults == [] && s.workers[l.fetchers].Idle?
    requires IsFetcher(l, i) && s.workers[i].Fetched? && |s.persistQueue| < PERSIST_QUEUE
    ensures Steady(l, c, t, depth) && OneParsed(s, t, page)
  {
    var s1 := PassResult(l, start, c, s, depth, i);
    t := ParseResult(l, start, c, s1, depth, page);
  }

  /** Whenever anything is in flight before the persister, its workers can take one item of it past the parsers,
      as a page or not. */
  lemma MoveOne(l: Limits, start: State, c: Claim, s: State, depth: int, page: bool) returns (t: State)
    requires Stable(l, start, c) && Steady(l, c, s, depth) && !s.disp.Counting? && !s.disp.Sending?
    requires s.inFlight > Behind(s) && |s.persistQueue| < PERSIST_QUEUE
    ensures Steady(l, c, t, depth) && OneParsed(s, t, page)
  {
    if i: nat :| IsParser(l, i) && s.workers[i].Parsing? {
      t := ParseOne(l, start, c, s, depth, i, page);
    } else if s.fetchResults != [] {
      t := ParseResult(l, start, c, s, depth, page);
    } else if i: nat :| IsFetcher(l, i) && s.workers[i].Fetched? {
      t := ParseFetched(l, start, c, s, depth, i, page);
    } else {
      OnlyPersisterBusy(l, s);
      var s1 := FetchNext(l, start, c, s, depth, 0);
      t := ParseFetched(l, start, c, s1, depth, 0, page);
    }
  }

  lemma {:induction false} NoneBusyBelow(workers: seq<Worker>)
    requires forall i :: 0 <= i < |workers| ==> !Busy(workers[i])
    ensures InWorkers(Everything, workers) == 0
  {
    forall w | w in workers ensures !Busy(w) {
    }
    NobodyBusy(Everything, workers);
  }

  /** When nobody before the persister is busy and no result waits, what is in flight waits to be fetched or
      stored. */
  lemma OnlyPersisterBusy(l: Limits, s: State)
    requires Calm(l, s) && Counted(s) && !s.disp.Counting? && !s.disp.Sending? && s.fetchResults == []
    requires forall i: nat :: IsParser(l, i) ==> !s.workers[i].Parsing?
    requires forall i: nat :: IsFetcher(l, i) ==> !s.workers[i].Fetched?
    ensures s.inFlight == |s.fetchQueue| + Behind(s)
    ensures s.workers[0].Idle? && s.workers[l.fetchers].Idle?
  {
    var n := |s.workers| - 1;
    forall i | 0 <= i < n ensures !Busy(s.workers[..n][i]) && s.workers[i].Idle? {
      assert CalmWorker(l, i, s.workers[i]);
    }
    NoneBusyBelow(s.workers[..n]);
    assert CalmWorker(l, n, s.workers[n]);
    InChannelPart(Item(0, "", "", 0), s.fetchQueue);
    InChannelPart(Item(0, "", "", 0), s.fetchResults);
    InChannelPart(Item(0, "", "", 0), s.persistQueue);
  }

  /** The persister stores an item. */
  lemma StoreOne(l: Limits, start: State, c: Claim, s: State, depth: int) returns (t: State)
    requires Stable(l, start, c) && Steady(l, c, s, depth) && Behind(s) >= 1
    ensures Steady(l, c, t, depth) && Behind(t) == Behind(s) - 1 && t.inFlight == s.inFlight - 1
    ensures t.pages == s.pages && t.disp == s.disp && t.frontier == s.frontier && t.hosts == s.hosts
  {
    var n := l.fetchers + PARSERS;
    assert CalmWorker(l, n, s.workers[n]);
    var s1 := if s.workers[n].Idle? then PersisterTook(s, n) else s;
    if s.workers[n].Idle? {
      PersisterTakes(l, start, c, s, n);
    }
    PersisterStores(l, start, c, s1, n);
    t := PersisterStored(s1, n);
  }

  /** One item less is on its way, one page more is counted. */
  ghost predicate OneCounted(s: State, t: State) {
    && t.pages == s.pages + 1 && t.inFlight == s.inFlight - 1
    && t.disp == s.disp && t.frontier == s.frontier && t.hosts == s.hosts
  }

  /** Whenever anything is in flight and nothing waits to be stored, a run of workers' steps counts one of it as
      a page and stores it. */
  lemma CountOne(l: Limits, start: State, c: Claim, s: State, depth: int) returns (t: State)
    requires Stable(l, start, c) && Steady(l, c, s, depth) && s.inFlight >= 1 && !s.disp.Counting? && !s.disp.Sending?
    requires Behind(s) == 0
    ensures Steady(l, c, t, depth) && OneCounted(s, t) && Behind(t) == 0
  {
    var s1 := MoveOne(l, start, c, s, depth, true);
    t := StoreOne(l, start, c, s1, depth);
  }

  // ---------- Making room and admitting an item ----------

  lemma {:induction false} BusyPrefix(workers: seq<Worker>, n: nat)
    requires n <= |workers| && forall i: nat :: i < n ==> Busy(workers[i])
    ensures InWorkers(Everything, workers) >= n
  {
    if n > 0 {
      BusyPrefix(workers[..|workers| - 1], if n == |workers| then n - 1 else n);
    }
  }

  /** As long as the pipeline is not full, the items in it can move so that `fetchQueue` has room. */
  lemma MakeRoom(l: Limits, start: State, c: Claim, s: State, depth: int) returns (t: State)
    requires Stable(l, start, c) && Steady(l, c, s, depth) && !s.disp.Counting? && !s.disp.Sending?
    requires s.inFlight < Capacity(l) + Behind(s)
    ensures Steady(l, c, t, depth) && Alike(s, t) && |t.fetchQueue| < FETCH_QUEUE
  {
    t := s;
    if |s.fetchQueue| == FETCH_QUEUE {
      if i: nat :| IsFetcher(l, i) && s.workers[i].Idle? {
        t := FetchNext(l, start, c, s, depth, i);
      } else {
        t := RoomForResult(l, start, c, s, depth);
        t := PassResult(l, start, c, t, depth, 0);
        t := FetchNext(l, start, c, t, depth, 0);
      }
    }
  }

  lemma AllBusyIsFull(l: Limits, s: State)
    requires Calm(l, s) && Counted(s) && !s.disp.Counting? && !s.disp.Sending?
    requires forall i: nat :: i < l.fetchers + PARSERS ==> Busy(s.workers[i])
    ensures s.inFlight >= |s.fetchQueue| + |s.fetchResults| + l.fetchers + PARSERS + Behind(s)
  {
    var n := |s.workers| - 1;
    BusyPrefix(s.workers[..n], n);
    assert CalmWorker(l, n, s.workers[n]);
    InChannelPart(Item(0, "", "", 0), s.fetchQueue);
    InChannelPart(Item(0, "", "", 0), s.fetchResults);
    InChannelPart(Item(0, "", "", 0), s.persistQueue);
  }

  lemma RoomForResult(l: Limits, start: State, c: Claim, s: State, depth: int) returns (t: State)
    requires Stable(l, start, c) && Steady(l, c, s, depth) && !s.disp.Counting? && !s.disp.Sending?
    requires s.inFlight < Capacity(l) + Behind(s) && |s.fetchQueue| == FETCH_QUEUE
    requires forall i: nat :: IsFetcher(l, i) ==> !s.workers[i].Idle?
    ensures Steady(l, c, t, depth) && Alike(s, t) && |t.fetchResults| < FETCH_RESULTS
    ensures t.fetchQueue == s.fetchQueue && t.workers[0] == s.workers[0] && s.workers[0].Fetched?
  {
    t := s;
    assert CalmWorker(l, 0, s.workers[0]);
    if |s.fetchResults| == FETCH_RESULTS {
      if i: nat :| IsParser(l, i) && s.workers[i].Idle? {
        t := TakeResult(l, start, c, s, depth, i);
      } else {
        forall i: nat | i < l.fetchers + PARSERS ensures Busy(s.workers[i]) {
          assert CalmWorker(l, i, s.workers[i]);
        }
        AllBusyIsFull(l, s);
        assert false;
      }
    }
  }

  /** One item more is on its way, one less on the frontier. */
  ghost predicate OneAdmitted(s: State, t: State) {
    && t.disp == ReadPages && t.pages == s.pages && t.hosts == s.hosts
    && t.inFlight == s.inFlight + 1 && |t.frontier.items| == |s.frontier.items| - 1 && SameBehind(s, t)
  }

  lemma SendOne(l: Limits, start: State, c: Claim, s: State, depth: int) returns (t: State)
    requires Stable(l, start, c) && Steady(l, c, s, depth)
    requires s.disp == Popping && s.frontier.items != multiset{} && |s.fetchQueue| < FETCH_QUEUE
    ensures Steady(l, c, t, depth) && OneAdmitted(s, t)
  {
    var item :| item in s.frontier.items;
    assert IsLeast(s.frontier.items, item);
    t := DispatcherSends(l, start, c, s, item);
  }

  lemma Admit(l: Limits, start: State, c: Claim, s: State, depth: int) returns (t: State)
    requires Stable(l, start, c) && Steady(l, c, s, depth)
    requires s.disp == Popping && s.frontier.items != multiset{} && s.inFlight < Capacity(l) + Behind(s)
    ensures Steady(l, c, t, depth) && OneAdmitted(s, t)
  {
    var s1 := MakeRoom(l, start, c, s, depth);
    t := SendOne(l, start, c, s1, depth);
  }

  // ---------- The run ----------

  lemma ReadCounter(l: Limits, start: State, c: Claim, s: State, depth: int) returns (t: State)
    requires Stable(l, start, c) && Steady(l, c, s, depth) && s.disp == ReadPages && l.maxPages > 0
    ensures t == s.(disp := ReadInFlight(s.pages)) && Steady(l, c, t, depth)
  {
    t := s.(disp := ReadInFlight(s.pages));
    Go(l, start, c, s, Look, t);
  }

  lemma PassTest(l: Limits, start: State, c: Claim, s: State, depth: int) returns (t: State)
    requires Stable(l, start, c) && Steady(l, c, s, depth)
    requires s.disp.ReadInFlight? && s.disp.pages + s.inFlight < l.maxPages
    ensures t == s.(disp := Popping) && Steady(l, c, t, depth)
  {
    t := s.(disp := Popping);
    Go(l, start, c, s, Look, t);
  }

  lemma {:induction false} CountSome(l: Limits, start: State, c: Claim, s: State, depth: int, n: nat) returns (t: State)
    requires Stable(l, start, c) && Steady(l, c, s, depth) && n <= s.inFlight && !s.disp.Counting? && !s.disp.Sending?
    requires n > 0 ==> Behind(s) == 0
    ensures Steady(l, c, t, depth) && Behind(t) == Behind(s) && (n == 0 ==> t == s)
    ensures t.pages == s.pages + n && t.inFlight == s.inFlight - n && t.disp == s.disp && t.frontier == s.frontier
    decreases n
  {
    t := s;
    if n > 0 {
      t := CountOne(l, start, c, s, depth);
      t := CountSome(l, start, c, t, depth, n - 1);
    }
  }

  /** One round of the dispatcher; between its two reads, `n` items become pages and leave. */
  lemma Round(l: Limits, start: State, c: Claim, s: State, depth: int, n: nat) returns (t: State)
    requires Stable(l, start, c) && Steady(l, c, s, depth) && s.disp == ReadPages && s.frontier.items != multiset{}
    requires n <= s.inFlight && (n > 0 ==> Behind(s) == 0) && l.maxPages > 0
    requires s.pages + s.inFlight - n < l.maxPages && s.inFlight - n < Capacity(l) + Behind(s)
    ensures Steady(l, c, t, depth) && t.disp == ReadPages
    ensures if n == 0 then SameBehind(s, t) else Behind(t) == 0
    ensures t.pages == s.pages + n && t.inFlight == s.inFlight - n + 1
    ensures |t.frontier.items| == |s.frontier.items| - 1
  {
    var s1 := ReadCounter(l, start, c, s, depth);
    var s2 := CountSome(l, start, c, s1, depth, n);
    var s3 := PassTest(l, start, c, s2, depth);
    t := Admit(l, start, c, s3, depth);
  }

  /** Counts pages one at a time. */
  lemma {:induction false} Climb(l: Limits, start: State, c: Claim, s: State, depth: int, n: nat) returns (t: State)
    requires Stable(l, start, c) && Steady(l, c, s, depth) && s.disp == ReadPages && s.inFlight == 0
    requires s.pages + n <= l.maxPages && n <= |s.frontier.items| && l.maxPages > 0 && Behind(s) == 0
    ensures Steady(l, c, t, depth) && t.disp == ReadPages && t.inFlight == 0 && Behind(t) == 0
    ensures t.pages == s.pages + n && |t.frontier.items| == |s.frontier.items| - n
    decreases n
  {
    t := s;
    if n > 0 {
      t := Round(l, start, c, s, depth, 0);
      t := CountOne(l, start, c, t, depth);
      t := Climb(l, start, c, t, depth, n - 1);
    }
  }

  /** Fills the pipeline. */
  lemma {:induction false} Fill(l: Limits, start: State, c: Claim, s: State, depth: int, n: nat) returns (t: State)
    requires Stable(l, start, c) && Steady(l, c, s, depth) && s.disp == ReadPages
    requires s.pages + s.inFlight + n <= l.maxPages && s.inFlight + n <= Capacity(l) && n <= |s.frontier.items|
    requires l.maxPages > 0 && Behind(s) == 0
    ensures Steady(l, c, t, depth) && t.disp == ReadPages && Behind(t) == 0
    ensures t.pages == s.pages && t.inFlight == s.inFlight + n && |t.frontier.items| == |s.frontier.items| - n
    decreases n
  {
    t := s;
    if n > 0 {
      t := Round(l, start, c, s, depth, 0);
      t := Fill(l, start, c, t, depth, n - 1);
    }
  }

  /** `k` windows, in which one, two, ... items become pages between the two reads. */
  lemma {:induction false} Windows(l: Limits, start: State, c: Claim, s: State, depth: int, k: nat) returns (t: State)
    requires Stable(l, start, c) && Steady(l, c, s, depth) && s.disp == ReadPages && l.maxPages > 0
    requires s.pages + s.inFlight == l.maxPages && s.inFlight <= Capacity(l)
    requires Tri(k - 1) < s.inFlight && k <= |s.frontier.items| && Behind(s) == 0
    ensures Steady(l, c, t, depth) && t.disp == ReadPages && Behind(t) == 0
    ensures t.pages == s.pages + Tri(k) && t.inFlight == s.inFlight + k - Tri(k)
    ensures |t.frontier.items| == |s.frontier.items| - k
  {
    t := s;
    if k > 0 {
      TriMonotone(k - 2, k - 1);
      t := Windows(l, start, c, s, depth, k - 1);
      t := Round(l, start, c, t, depth, k);
    }
  }

  // ---------- Exactly how far ----------

  /** A start with at least `n` items on the frontier, all of one depth and on known hosts. */
  ghost predicate Plenty(l: Limits, start: State, depth: int, n: int) {
    && Initial(l, start, start.pages, start.urls)
    && (forall item :: item in start.frontier.items ==> Known(l, item, start.hosts) && item.depth == depth)
    && |start.frontier.items| >= n
  }

  lemma StartIsSteady(l: Limits, start: State, c: Claim, depth: int, n: int)
    requires Plenty(l, start, depth, n) && Stable(l, start, c) && l.fetchers >= 1
    ensures Steady(l, c, start, depth) && Behind(start) == 0
  {
    NobodyBusy(Everything, start.workers);
    forall i: nat | i < |start.workers| ensures CalmWorker(l, i, start.workers[i]) {
      assert start.workers[i] in start.workers;
    }
  }

  /** The run: climb until what is left of the limit fits into the pipeline, fill it, let `over` windows
      pass, and count the rest. */
  lemma OvershootRun(l: Limits, start: State, c: Claim, depth: int, over: nat) returns (s: State)
    requires Stable(l, start, c) && l.fetchers >= 1 && start.pages < l.maxPages && l.maxPages > 0
    requires Plenty(l, start, depth, l.maxPages - start.pages + over) && Tri(over - 1) < Slack(l, start.pages)
    ensures c.holds(s) && s.pages == l.maxPages + over
  {
    StartIsSteady(l, start, c, depth, l.maxPages - start.pages + over);
    var slack := Slack(l, start.pages);
    s := Climb(l, start, c, start, depth, l.maxPages - slack - start.pages);
    s := Fill(l, start, c, s, depth, slack);
    s := Windows(l, start, c, s, depth, over);
    s := CountSome(l, start, c, s, depth, s.inFlight);
  }

  /** Started below the limit with enough to crawl, the pipeline can pass the limit by `over` pages if and
      only if 0 + 1 + ... + (over - 1) is less than the slack, the lesser of what is left of the limit and
      what fits into channels, fetchers and parsers. */
  lemma OvershootExactly(l: Limits, start: State, depth: int, over: nat)
    requires l.fetchers >= 1 && start.pages < l.maxPages && l.maxPages > 0 && over >= 1
    requires Plenty(l, start, depth, l.maxPages - start.pages + over)
    ensures (exists s :: Leads(l, start, s) && s.pages == l.maxPages + over) <==> Tri(over - 1) < Slack(l, start.pages)
  {
    if s :| Leads(l, start, s) && s.pages == l.maxPages + over {
      var states, actions :|
        Run(l, states, actions, start.pages, start.urls) && states[0] == start && states[|actions|] == s;
      PageOvershoot(l, states, actions, start.pages, start.urls, s);
    }
    if Tri(over - 1) < Slack(l, start.pages) {
      var c := LeadsIsStable(l, start);
      var s := OvershootRun(l, start, c, depth, over);
    }
  }

  /** The limit can be passed exactly when the start lies below it. */
  lemma PassedExactlyFromBelow(l: Limits, start: State, depth: int)
    requires l.fetchers >= 1 && l.maxPages > 0 && Plenty(l, start, depth, l.maxPages - start.pages + 1)
    ensures (exists s :: Leads(l, start, s) && s.pages > l.maxPages && s.pages > start.pages)
       <==> start.pages < l.maxPages
  {
    if start.pages < l.maxPages {
      OvershootExactly(l, start, depth, 1);
    } else if s :| Leads(l, start, s) && s.pages > l.maxPages && s.pages > start.pages {
      var states, actions :|
        Run(l, states, actions, start.pages, start.urls) && states[0] == start && states[|actions|] == s;
      PageOvershoot(l, states, actions, start.pages, start.urls, s);
      assert false;
    }
  }

  // ---------- Such starts exist ----------

  function Supply(n: nat): multiset<Item> {
    if n == 0 then multiset{} else Supply(n - 1) + multiset{Item(n, "", "", 0)}
  }

  lemma {:induction false} SupplyIsSound(n: nat)
    ensures DistinctUrls(Supply(n)) && |Supply(n)| == n
    ensures forall item :: item in Supply(n) ==> 1 <= item.urlId <= n && item.depth == 0
  {
    if n > 0 {
      SupplyIsSound(n - 1);
      DistinctWithNew(Supply(n - 1), Item(n, "", "", 0));
    }
  }

  /** Whatever the counters, without a host limit there is a start with as much to crawl as one likes. */
  lemma PlentyExists(l: Limits, pages: int, urls: int, n: nat) returns (start: State)
    requires l.maxHosts <= 0
    ensures Plenty(l, start, 0, n) && start.pages == pages && start.urls == urls
  {
    SupplyIsSound(n);
    var frontier := Contents(Supply(n), set item | item in Supply(n) :: item.urlId);
    var hosts := set item | item in Supply(n) && l.key(item).Some? :: l.key(item).value;
    var workers := seq(l.fetchers + PARSERS + 1, _ => Idle);
    start := State(0, pages, urls, frontier, hosts, false, ReadPages, [], [], [], workers,
                   multiset{}, multiset{}, [], {}, 0, multiset{});
  }

  /** Every limit can be passed. */
  lemma OverTheLimit(l: Limits) returns (start: State, s: State)
    requires l.fetchers >= 1 && l.maxPages > 0 && l.maxHosts <= 0
    ensures Leads(l, start, s) && start.pages == 0 && s.pages == l.maxPages + 1
  {
    start := PlentyExists(l, 0, 0, l.maxPages + 1);
    OvershootExactly(l, start, 0, 1);
    s :| Leads(l, start, s) && s.pages == l.maxPages + 1;
  }
}
