/** Runs that the split reads allow: a clean end, far from any limit, with a URL left on the frontier. */
module PipelineRaces {
  import opened GoText
  import opened Frontier
  import opened Pipeline
  import opened PipelineAccounting
  import opened PipelineMoves
  import opened PipelineRuns

  /** A start with one item on a known host, below the limits. */
  ghost predicate OneItem(l: Limits, start: State, item: Item) {
    && Initial(l, start, start.pages, start.urls) && l.fetchers >= 1
    && start.frontier.items == multiset{item} && Known(l, item, start.hosts)
    && (l.maxPages > 0 ==> start.pages < l.maxPages)
  }

  /** ... whose page will have a new link; all limits leave room. */
  ghost predicate OneWithLink(l: Limits, start: State, item: Item, link: Item) {
    && OneItem(l, start, item) && !start.cancelled
    && link.depth == item.depth + 1 <= l.maxDepth && link.urlId !in start.frontier.seen
    && (l.maxPages > 0 ==> start.pages + 3 <= l.maxPages)
    && (l.maxDiscovered > 0 ==> start.urls < l.maxDiscovered)
  }

  // ---------- Longer stretches ----------

  /** The only item in the channels is fetched and reaches the first parser. */
  lemma FetchAlone(l: Limits, start: State, c: Claim, s: State, item: Item)
    requires Reached(l, start, c, s) && l.fetchers >= 1 && |s.workers| == l.fetchers + PARSERS + 1
    requires s.fetchQueue == [item] && s.fetchResults == [] && Known(l, item, s.hosts)
    requires s.workers[0].Idle? && s.workers[l.fetchers].Idle?
    ensures Reached(l, start, c, s.(fetchQueue := [], workers := s.workers[l.fetchers := Parsing(item)]))
  {
    var w := s.workers;
    FetcherTakes(l, start, c, s, 0);
    FetcherKnowsHost(l, start, c, s.(fetchQueue := [], workers := w[0 := Got(item)]), 0);
    assert w[0 := Got(item)][0 := Ready(item)] == w[0 := Ready(item)];
    FetcherFetches(l, start, c, s.(fetchQueue := [], workers := w[0 := Ready(item)]), 0);
    assert w[0 := Ready(item)][0 := Fetched(item)] == w[0 := Fetched(item)];
    FetcherPasses(l, start, c, s.(fetchQueue := [], workers := w[0 := Fetched(item)]), 0);
    assert w[0 := Fetched(item)][0 := Idle] == w && [] + [item] == [item];
    ParserTakes(l, start, c, s.(fetchQueue := [], fetchResults := [item]), l.fetchers);
  }

  /** The item of such a start comes to the first parser. */
  lemma ComesToParser(l: Limits, start: State, c: Claim, item: Item) returns (t: State)
    requires OneItem(l, start, item) && Reached(l, start, c, start)
    ensures Reached(l, start, c, t)
    ensures t == start.(frontier := Contents(multiset{}, start.frontier.seen), inFlight := 1,
                        dispatched := t.dispatched, workers := start.workers[l.fetchers := Parsing(item)])
  {
    DispatcherGoesOn(l, start, c, start);
    t := DispatcherSends(l, start, c, start.(disp := Popping), item);
    assert multiset{item} - multiset{item} == multiset{};
    assert start.workers[0] in start.workers && start.workers[l.fetchers] in start.workers;
    FetchAlone(l, start, c, t, item);
    t := t.(fetchQueue := [], workers := t.workers[l.fetchers := Parsing(item)]);
  }

  /** The page is counted, and its link passes the tests of depth and pages. */
  lemma CheckLinkOf(l: Limits, start: State, c: Claim, s: State, i: nat, link: Item) returns (t: State)
    requires Reached(l, start, c, s) && i < |s.workers| && s.workers[i].Parsing?
    requires link.depth == s.workers[i].item.depth + 1 <= l.maxDepth
    requires l.maxPages > 0 ==> s.pages + 1 < l.maxPages
    ensures Reached(l, start, c, t)
    ensures t == s.(pages := s.pages + 1, ranked := t.ranked,
                    workers := s.workers[i := Checked(s.workers[i].item, s.pages + 1, link)])
  {
    var w, item, n := s.workers, s.workers[i].item, s.pages + 1;
    var s1 := s.(pages := n, ranked := s.ranked + [item], workers := w[i := Expanding(item, n)]);
    Go(l, start, c, s, Work(i, CountPage), s1);
    t := s1.(workers := w[i := Checked(item, n, link)]);
    assert s1.workers[i := Checked(item, n, link)] == t.workers;
    Go(l, start, c, s1, Work(i, CheckLink(link)), t);
  }

  /** Without contention the link is reserved at the first attempt. */
  lemma ReserveLink(l: Limits, start: State, c: Claim, s: State, i: nat) returns (t: State)
    requires Reached(l, start, c, s) && i < |s.workers| && s.workers[i].Checked?
    requires l.maxDiscovered > 0 ==> s.urls < l.maxDiscovered
    ensures Reached(l, start, c, t)
    ensures var w := s.workers[i];
            t == s.(urls := t.urls, granted := t.granted, workers := s.workers[i := Reserved(w.item, w.rank, w.link)])
  {
    var w := s.workers[i];
    t := Reserve(s, i, w);
    if l.maxDiscovered <= 0 {
      Go(l, start, c, s, Work(i, Load), t);
    } else {
      var s1 := s.(workers := s.workers[i := Loaded(w.item, w.rank, w.link, s.urls)]);
      Go(l, start, c, s, Work(i, Load), s1);
      assert s1.workers[i := Reserved(w.item, w.rank, w.link)] == t.workers;
      Go(l, start, c, s1, Work(i, Swap), t);
    }
  }

  /** With the frontier empty and the limit far, the dispatcher comes to its last read. */
  lemma ReadsEmptyFrontier(l: Limits, start: State, c: Claim, s: State)
    requires Reached(l, start, c, s) && s.disp == ReadPages && s.frontier.items == multiset{}
    requires l.maxPages > 0 ==> s.pages + s.inFlight < l.maxPages
    ensures Reached(l, start, c, s.(disp := ExitZero(false), late := multiset{}))
  {
    DispatcherGoesOn(l, start, c, s);
    Go(l, start, c, s.(disp := Popping), Pop(None), s.(disp := ExitPages));
    var s1 := s.(disp := ExitPages);
    Go(l, start, c, s1, Look, Looked(l, s1));
    if l.maxPages > 0 {
      var s2 := s.(disp := ExitInFlight(s.pages));
      Go(l, start, c, s2, Look, Looked(l, s2));
    }
    var s3 := s.(disp := ExitLen(false));
    Go(l, start, c, s3, Look, Looked(l, s3));
  }

  /** A parsed item goes to the idle persister and is stored. */
  lemma StoreParsed(l: Limits, start: State, c: Claim, s: State, i: nat) returns (t: State)
    requires Reached(l, start, c, s) && |s.workers| == l.fetchers + PARSERS + 1 && i < l.fetchers + PARSERS
    requires s.workers[i].Parsed? && s.persistQueue == [] && s.workers[l.fetchers + PARSERS].Idle?
    ensures Reached(l, start, c, t)
    ensures t == s.(left := t.left, inFlight := s.inFlight - 1, workers := s.workers[i := Idle])
  {
    var n := l.fetchers + PARSERS;
    var s1 := ParserPasses(l, start, c, s, i);
    PersisterTakes(l, start, c, s1, n);
    var s2 := PersisterTook(s1, n);
    PersisterStores(l, start, c, s2, n);
    t := PersisterStored(s2, n);
    assert s2.workers[n := Idle] == s1.workers;
  }

  /** The reserved link is pushed, and the page is handed on and stored. */
  lemma PushAndStore(l: Limits, start: State, c: Claim, s: State, i: nat, link: Item) returns (t: State)
    requires Reached(l, start, c, s) && |s.workers| == l.fetchers + PARSERS + 1 && i < l.fetchers + PARSERS
    requires s.workers[i].Reserved? && s.workers[i].link == link && link.urlId !in s.frontier.seen
    requires s.persistQueue == [] && s.workers[l.fetchers + PARSERS].Idle?
    ensures Reached(l, start, c, t)
    ensures t == s.(frontier := Pushed(s.frontier, link), late := t.late, pushers := t.pushers, left := t.left,
                    inFlight := s.inFlight - 1, workers := s.workers[i := Idle])
  {
    var s1 := Worked(l, s, i, PushLink);
    Go(l, start, c, s, Work(i, PushLink), s1);
    ParserEnds(l, start, c, s1, i);
    var s2 := s1.(workers := s1.workers[i := Parsed(s.workers[i].item)]);
    t := StoreParsed(l, start, c, s2, i);
    assert t.workers == s.workers[i := Idle];
  }

  // ---------- A URL left behind ----------

  /** The item has been fetched and counted as a page, and its link is reserved but not pushed. */
  ghost predicate LinkInHand(l: Limits, start: State, s: State, item: Item, link: Item)
    requires |start.workers| > l.fetchers
  {
    && s.disp == ReadPages && s.inFlight == 1 && s.pages == start.pages + 1 && !s.cancelled
    && s.frontier == Contents(multiset{}, start.frontier.seen)
    && s.fetchQueue == [] && s.fetchResults == [] && s.persistQueue == []
    && s.workers == start.workers[l.fetchers := Reserved(item, s.pages, link)]
  }

  lemma ComesToLink(l: Limits, start: State, c: Claim, item: Item, link: Item) returns (t: State)
    requires OneWithLink(l, start, item, link) && Reached(l, start, c, start)
    ensures Reached(l, start, c, t) && LinkInHand(l, start, t, item, link)
  {
    var s1 := ComesToParser(l, start, c, item);
    var s2 := CheckLinkOf(l, start, c, s1, l.fetchers, link);
    t := ReserveLink(l, start, c, s2, l.fetchers);
    assert t.workers == start.workers[l.fetchers := Reserved(item, t.pages, link)];
  }

  /** The dispatcher reads the length of an empty frontier, then the parser pushes the link and the page is
      stored, then the dispatcher reads `inFlight` as zero. So for every start with one item and a link the
      pipeline can return without error and below all limits, and leave the link uncrawled. */
  lemma LeftBehind(l: Limits, start: State, item: Item, link: Item) returns (s: State)
    requires OneWithLink(l, start, item, link)
    ensures Leads(l, start, s) && s.disp == Returned(true, false) && !s.cancelled
    ensures s.frontier.items == multiset{link} && s.pages == start.pages + 1
  {
    var c := LeadsIsStable(l, start);
    NobodyBusy(Everything, start.workers);
    s := ComesToLink(l, start, c, item, link);
    ReadsEmptyFrontier(l, start, c, s);
    s := s.(disp := ExitZero(false), late := multiset{});
    assert start.workers[l.fetchers + PARSERS] in start.workers;
    s := PushAndStore(l, start, c, s, l.fetchers, link);
    forall w | w in s.workers ensures w.Idle? {
      var i :| 0 <= i < |s.workers| && s.workers[i] == w;
      assert i == l.fetchers || start.workers[i] in start.workers;
    }
    s := EndsCleanly(l, start, c, s, false);
  }

  /** Such starts exist under all limits that leave room for three pages and a link. */
  lemma LeftBehindUnderAnyLimits(l: Limits) returns (start: State, s: State)
    requires l.fetchers >= 1 && l.maxDepth >= 1 && (l.maxPages > 0 ==> l.maxPages >= 3)
    ensures Leads(l, start, s) && start.pages == 0 && start.urls == 0
    ensures s.disp == Returned(true, false) && !s.cancelled && s.frontier.items != multiset{} && s.pages == 1
  {
    var item, link := Item(1, "a", "h", 0), Item(2, "b", "h", 1);
    var hosts := if l.key(item).Some? then {l.key(item).value} else {};
    var workers := seq(l.fetchers + PARSERS + 1, _ => Idle);
    start := State(0, 0, 0, Contents(multiset{item}, {1}), hosts, false, ReadPages, [], [], [], workers,
                   multiset{}, multiset{}, [], {}, 0, multiset{});
    s := LeftBehind(l, start, item, link);
  }

  // ---------- A failure not reported ----------

  /** A parsed item goes to the idle persister, which fails to store it. */
  lemma FailParsed(l: Limits, start: State, c: Claim, s: State, i: nat) returns (t: State)
    requires Reached(l, start, c, s) && |s.workers| == l.fetchers + PARSERS + 1 && i < l.fetchers + PARSERS
    requires s.workers[i].Parsed? && s.persistQueue == [] && s.workers[l.fetchers + PARSERS].Idle?
    ensures Reached(l, start, c, t)
    ensures t == s.(left := t.left, inFlight := s.inFlight - 1,
                    workers := s.workers[i := Idle][l.fetchers + PARSERS := Failing])
  {
    var n := l.fetchers + PARSERS;
    var s1 := ParserPasses(l, start, c, s, i);
    PersisterTakes(l, start, c, s1, n);
    var s2 := PersisterTook(s1, n);
    t := Worked(l, s2, n, Fail);
    Go(l, start, c, s2, Work(n, Fail), t);
    assert s2.workers[n := Failing] == s1.workers[n := Failing];
  }

  /** The item comes to the persister, which fails to store it. */
  lemma ComesToFail(l: Limits, start: State, c: Claim, item: Item) returns (t: State)
    requires OneItem(l, start, item) && Reached(l, start, c, start)
    ensures Reached(l, start, c, t) && t.disp == ReadPages && t.inFlight == 0 && t.pages == start.pages
    ensures t.frontier.items == multiset{} && t.workers == start.workers[l.fetchers + PARSERS := Failing]
    ensures t.fetchQueue == [] && t.fetchResults == [] && t.persistQueue == []
  {
    var s1 := ComesToParser(l, start, c, item);
    assert start.workers[l.fetchers] in start.workers && start.workers[l.fetchers + PARSERS] in start.workers;
    ParserSkips(l, start, c, s1, l.fetchers);
    t := FailParsed(l, start, c, s1.(workers := s1.workers[l.fetchers := Parsed(item)]), l.fetchers);
    assert s1.workers[l.fetchers := Parsed(item)][l.fetchers := Idle] == start.workers;
  }

  /** A failed persister gives its item up before it cancels the crawl. When that was the last item, the pipeline can
      return without an error although the item was not stored. */
  lemma FailureUnreported(l: Limits, start: State, item: Item) returns (s: State)
    requires OneItem(l, start, item)
    ensures Leads(l, start, s) && s.disp == Returned(true, false) && s.cancelled
  {
    var c := LeadsIsStable(l, start);
    var n := l.fetchers + PARSERS;
    NobodyBusy(Everything, start.workers);
    s := ComesToFail(l, start, c, item);
    ReadsEmptyFrontier(l, start, c, s);
    s := s.(disp := ExitZero(false), late := multiset{});
    Go(l, start, c, s, Work(n, CancelAll), Worked(l, s, n, CancelAll));
    s := Worked(l, s, n, CancelAll);
    forall w | w in s.workers ensures w.Idle? || w.Gone? {
      var i :| 0 <= i < |s.workers| && s.workers[i] == w;
      assert start.workers[i] in start.workers;
    }
    s := EndsCleanly(l, start, c, s, false);
  }
}
