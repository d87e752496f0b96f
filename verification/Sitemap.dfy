/** Following a sitemap and its indexes: a worklist over addresses with a hard bound on fetches. */
module Sitemap {
  import opened GoText

  datatype Url = Url(id: int)

  datatype Entry = Entry(loc: Url, sourceUrl: Url)

  /** A readable sitemap: where it was finally served from, and what parsing its body as an index and
      as a URL set gives. */
  datatype Doc = Doc(finalUrl: Url, index: Option<seq<Url>>, urls: Option<seq<Url>>)

  /** What the web answers; an address is asked for at most once, so one answer per address suffices. */
  type Web = Url -> Option<Doc>

  const MAX_SITEMAP_FETCHES := 1000

  datatype Failure = Cancelled | TooManyFetched | TooManyQueued | Unreadable | Malformed

  datatype Outcome = Outcome(entries: seq<Entry>, sitemapCount: nat, error: Option<Failure>)

  // ---------- The worklist as a transition system ----------

  /** `calls` lists the addresses fetched so far. */
  datatype State = State(queue: seq<Url>, visited: set<Url>, entries: seq<Entry>, count: nat, calls: seq<Url>)

  datatype Turn = Again(state: State) | Stop(error: Option<Failure>, state: State)

  function Begin(root: Url): State {
    State([root], {}, [], 0, [])
  }

  function Sourced(urls: seq<Url>, source: Url): (r: seq<Entry>)
    ensures |r| == |urls|
  {
    seq(|urls|, i requires 0 <= i < |urls| => Entry(urls[i], source))
  }

  predicate IsIndex(doc: Doc) {
    doc.index.Some? && doc.index.value != []
  }

  /** One pass through the loop body. */
  function Turned(web: Web, root: Url, budget: int, st: State): Turn
    requires |st.queue| > 0 && |st.entries| < budget
  {
    if st.count >= MAX_SITEMAP_FETCHES then Stop(Some(TooManyFetched), st)
    else
      var current, rest := st.queue[0], st.queue[1..];
      if current in st.visited then Again(st.(queue := rest))
      else
        var st1 := st.(queue := rest, visited := st.visited + {current}, calls := st.calls + [current]);
        match web(current)
        case None => if current == root then Stop(Some(Unreadable), st1) else Again(st1)
        case Some(doc) =>
          if doc.finalUrl != current && doc.finalUrl in st1.visited then Again(st1)
          else
            var st2 := st1.(visited := st1.visited + {doc.finalUrl}, count := st1.count + 1);
            if IsIndex(doc) then
              if |st2.visited| + |rest| + |doc.index.value| > MAX_SITEMAP_FETCHES then Stop(Some(TooManyQueued), st2)
              else Again(st2.(queue := rest + doc.index.value))
            else if doc.urls.None? then
              if current == root then Stop(Some(Malformed), st2) else Again(st2)
            else
              var remaining := budget - |st2.entries|;
              var parsed := if |doc.urls.value| > remaining then doc.urls.value[..remaining] else doc.urls.value;
              Again(st2.(entries := st2.entries + Sourced(parsed, doc.finalUrl)))
  }

  // ---------- What one turn does ----------

  function Final(web: Web, u: Url): Url {
    if web(u).Some? then web(u).value.finalUrl else u
  }

  /** The front address is asked for, served, and adds to the entries. */
  predicate IsNew(web: Web, st: State, u: Url) {
    web(u).Some? && !(Final(web, u) != u && Final(web, u) in st.visited + {u})
  }

  function Added(web: Web, budget: int, st: State, u: Url): seq<Entry>
    requires |st.entries| < budget
  {
    if IsNew(web, st, u) && !IsIndex(web(u).value) && web(u).value.urls.Some? then
      var urls, remaining := web(u).value.urls.value, budget - |st.entries|;
      Sourced(if |urls| > remaining then urls[..remaining] else urls, Final(web, u))
    else []
  }

  /** The turn looks at the front address. */
  predicate Looks(st: State)
    requires |st.queue| > 0
  {
    st.count < MAX_SITEMAP_FETCHES && st.queue[0] !in st.visited
  }

  lemma TurnSkips(web: Web, root: Url, budget: int, st: State)
    requires |st.queue| > 0 && |st.entries| < budget && !Looks(st)
    ensures var st' := Turned(web, root, budget, st).state; st' == st.(queue := st'.queue)
  {
  }

  lemma TurnRecords(web: Web, root: Url, budget: int, st: State)
    requires |st.queue| > 0 && |st.entries| < budget && Looks(st)
    ensures var u, st' := st.queue[0], Turned(web, root, budget, st).state;
            && st'.calls == st.calls + [u]
            && st'.visited == st.visited + {u} + (if IsNew(web, st, u) then {Final(web, u)} else {})
            && st'.count == st.count + (if IsNew(web, st, u) then 1 else 0)
  {
    var u := st.queue[0];
    assert st.visited + {u} + {} == st.visited + {u};
  }

  lemma TurnLists(web: Web, root: Url, budget: int, st: State)
    requires |st.queue| > 0 && |st.entries| < budget && Looks(st)
    ensures Turned(web, root, budget, st).state.entries == st.entries + Added(web, budget, st, st.queue[0])
  {
    assert st.entries + [] == st.entries;
  }

  function Children(web: Web, st: State, u: Url): seq<Url> {
    if IsNew(web, st, u) && IsIndex(web(u).value) then web(u).value.index.value else []
  }

  lemma TurnQueues(web: Web, root: Url, budget: int, st: State)
    requires |st.queue| > 0 && |st.entries| < budget && Turned(web, root, budget, st).Again?
    ensures Turned(web, root, budget, st).state.queue ==
            st.queue[1..] + if Looks(st) then Children(web, st, st.queue[0]) else []
  {
    assert st.queue[1..] + [] == st.queue[1..];
  }

  /** What one turn does to the record, whether it goes on or not. */
  ghost predicate Advances(web: Web, budget: int, st: State, st': State)
    requires |st.queue| > 0 && |st.entries| < budget
  {
    var u := st.queue[0];
    && st'.calls == st.calls + [u]
    && st'.visited == st.visited + {u} + (if IsNew(web, st, u) then {Final(web, u)} else {})
    && st'.count == st.count + (if IsNew(web, st, u) then 1 else 0)
    && st'.entries == st.entries + Added(web, budget, st, u)
  }

  ghost predicate Distinct(s: seq<Url>) {
    forall i, j :: 0 <= i < j < |s| ==> s[i] != s[j]
  }

  /** Calls made and addresses queued stay within the bound together. */
  ghost predicate Bounded(st: State) {
    && |st.calls| + |st.queue| <= MAX_SITEMAP_FETCHES
    && st.count <= |st.calls| <= |st.visited|
    && Distinct(st.calls)
    && forall u :: u in st.calls ==> u in st.visited
  }

  /** Children are queued only while they fit. */
  lemma TurnFits(web: Web, root: Url, budget: int, st: State)
    requires |st.queue| > 0 && |st.entries| < budget && Looks(st)
    ensures var st' := Turned(web, root, budget, st).state;
            st'.queue == st.queue[1..] || |st'.visited| + |st'.queue| <= MAX_SITEMAP_FETCHES
  {
  }

  lemma OneMore(visited: set<Url>, u: Url)
    ensures |visited + {u}| >= |visited|
  {
    if u in visited {
      assert visited + {u} == visited;
    }
  }

  lemma AdvanceKeepsBound(st: State, st': State, u: Url, final: Option<Url>)
    requires Bounded(st) && st.queue != [] && u !in st.visited
    requires st'.calls == st.calls + [u] && st.count <= st'.count <= st.count + 1
    requires st'.visited == st.visited + {u} + (if final.Some? then {final.value} else {})
    requires st'.queue == st.queue[1..] || |st'.visited| + |st'.queue| <= MAX_SITEMAP_FETCHES
    ensures Bounded(st')
  {
    if final.Some? {
      OneMore(st.visited + {u}, final.value);
    }
  }

  lemma TurnKeepsBound(web: Web, root: Url, budget: int, st: State)
    requires |st.queue| > 0 && |st.entries| < budget && Bounded(st)
    ensures Bounded(Turned(web, root, budget, st).state)
    ensures Turned(web, root, budget, st) != Stop(Some(TooManyFetched), Turned(web, root, budget, st).state)
    ensures |Turned(web, root, budget, st).state.entries| <= budget
  {
    var u, st' := st.queue[0], Turned(web, root, budget, st).state;
    if Looks(st) {
      TurnRecords(web, root, budget, st);
      TurnLists(web, root, budget, st);
      TurnFits(web, root, budget, st);
      AdvanceKeepsBound(st, st', u, if IsNew(web, st, u) then Some(Final(web, u)) else None);
    } else {
      TurnSkips(web, root, budget, st);
    }
  }

  /** The whole loop; `ctx(n)` says whether the caller's context is cancelled before turn `n`. */
  function Traverse(web: Web, root: Url, budget: int, ctx: nat -> bool, n: nat,
      st: State): (r: (State, Option<Failure>))
    requires Bounded(st)
    ensures Bounded(r.0)
    decreases MAX_SITEMAP_FETCHES - |st.calls|, |st.queue|
  {
    if |st.queue| == 0 || |st.entries| >= budget then (st, None)
    else if ctx(n) then (st, Some(Cancelled))
    else
      TurnKeepsBound(web, root, budget, st);
      match Turned(web, root, budget, st)
      case Stop(error, st') => (st', error)
      case Again(st') => Traverse(web, root, budget, ctx, n + 1, st')
  }

  /** Never more than 1000 fetches, never two of one address, never more entries than asked for, and
      the guard on the number of fetched sitemaps is never the one that ends the traversal. */
  lemma {:induction false} TraversalIsBounded(web: Web, root: Url, budget: int, ctx: nat -> bool, n: nat, st: State)
    requires Bounded(st) && (|st.entries| <= budget || st.entries == [])
    ensures var (end, error) := Traverse(web, root, budget, ctx, n, st);
            && |end.calls| <= MAX_SITEMAP_FETCHES && Distinct(end.calls)
            && (|end.entries| <= budget || end.entries == [])
            && error != Some(TooManyFetched)
    decreases MAX_SITEMAP_FETCHES - |st.calls|, |st.queue|
  {
    if |st.queue| != 0 && |st.entries| < budget && !ctx(n) {
      TurnKeepsBound(web, root, budget, st);
      var turn := Turned(web, root, budget, st);
      if turn.Again? {
        TraversalIsBounded(web, root, budget, ctx, n + 1, turn.state);
      }
    }
  }

  // ---------- A larger budget only adds entries ----------

  lemma {:induction false} EntriesOnlyGrow(web: Web, root: Url, budget: int, ctx: nat -> bool, n: nat, st: State)
    requires Bounded(st)
    ensures st.entries <= Traverse(web, root, budget, ctx, n, st).0.entries
    decreases MAX_SITEMAP_FETCHES - |st.calls|, |st.queue|
  {
    if |st.queue| != 0 && |st.entries| < budget && !ctx(n) {
      TurnKeepsBound(web, root, budget, st);
      var turn := Turned(web, root, budget, st);
      if turn.Again? {
        EntriesOnlyGrow(web, root, budget, ctx, n + 1, turn.state);
      }
    }
  }

  lemma TurnsAgree(web: Web, root: Url, small: int, large: int, st: State)
    requires |st.queue| > 0 && |st.entries| < small <= large
    ensures var a, b := Turned(web, root, small, st), Turned(web, root, large, st);
            a == b || (a.Again? && b.Again? && |a.state.entries| == small && a.state.entries <= b.state.entries)
  {
  }

  /** The entries for a budget are a prefix of those for any larger one, error exits included. */
  lemma {:induction false} LargerBudgetExtends(web: Web, root: Url, small: int, large: int, ctx: nat -> bool, n: nat,
      st: State)
    requires small <= large && Bounded(st)
    ensures Traverse(web, root, small, ctx, n, st).0.entries <= Traverse(web, root, large, ctx, n, st).0.entries
    decreases MAX_SITEMAP_FETCHES - |st.calls|, |st.queue|
  {
    EntriesOnlyGrow(web, root, large, ctx, n, st);
    if |st.queue| != 0 && |st.entries| < small && !ctx(n) {
      TurnKeepsBound(web, root, small, st);
      TurnKeepsBound(web, root, large, st);
      TurnsAgree(web, root, small, large, st);
      var a, b := Turned(web, root, small, st), Turned(web, root, large, st);
      if a == b && a.Again? {
        LargerBudgetExtends(web, root, small, large, ctx, n + 1, a.state);
      } else if a.Again? {
        EntriesOnlyGrow(web, root, large, ctx, n + 1, b.state);
      }
    }
  }

  // ---------- Nothing reachable is missed ----------

  /** A redirect answers with what its target answers. */
  ghost predicate Stable(web: Web) {
    forall u :: web(u).Some? ==> web(web(u).value.finalUrl) == web(u)
  }

  ghost predicate Follows(web: Web, parent: Url, child: Url) {
    web(parent).Some? && IsIndex(web(parent).value) && child in web(parent).value.index.value
  }

  ghost predicate Lists(web: Web, u: Url, loc: Url) {
    web(u).Some? && !IsIndex(web(u).value) && web(u).value.urls.Some? && loc in web(u).value.urls.value
  }

  ghost predicate Reached(web: Web, root: Url, u: Url, n: nat)
    decreases n
  {
    if n == 0 then u == root else exists v :: Reached(web, root, v, n - 1) && Follows(web, v, u)
  }

  ghost predicate Covered(web: Web, root: Url, st: State) {
    && (root in st.visited || root in st.queue)
    && (forall u, w :: u in st.visited && Follows(web, u, w) ==> w in st.visited || w in st.queue)
    && (forall u, loc :: u in st.visited && Lists(web, u, loc) ==> Entry(loc, web(u).value.finalUrl) in st.entries)
  }

  lemma SkipCovers(web: Web, root: Url, st: State, st': State)
    requires st.queue != [] && Covered(web, root, st) && st.queue[0] in st.visited
    requires st' == st.(queue := st.queue[1..])
    ensures Covered(web, root, st')
  {
    assert st.queue == [st.queue[0]] + st.queue[1..];
  }

  /** What the front address lists is listed afterwards. */
  lemma FrontListed(web: Web, root: Url, budget: int, st: State, st': State, loc: Url)
    requires st.queue != [] && |st.entries| < budget && Stable(web) && Covered(web, root, st) && Looks(st)
    requires Advances(web, budget, st, st') && |st'.entries| < budget && Lists(web, st.queue[0], loc)
    ensures Entry(loc, Final(web, st.queue[0])) in st'.entries
  {
    var u := st.queue[0];
    var doc := web(u).value;
    if !IsNew(web, st, u) {
      assert Lists(web, doc.finalUrl, loc) && web(doc.finalUrl) == web(u);
    } else {
      var i :| 0 <= i < |doc.urls.value| && doc.urls.value[i] == loc;
      assert Sourced(doc.urls.value, doc.finalUrl)[i] == Entry(loc, doc.finalUrl);
    }
  }

  /** ... and the addresses in the front index are queued or visited. */
  lemma FrontFollowed(web: Web, root: Url, budget: int, st: State, st': State, w: Url)
    requires st.queue != [] && |st.entries| < budget && Stable(web) && Covered(web, root, st) && Looks(st)
    requires Advances(web, budget, st, st') && st'.queue == st.queue[1..] + Children(web, st, st.queue[0])
    requires Follows(web, st.queue[0], w)
    ensures w in st'.visited || w in st'.queue
  {
    var u := st.queue[0];
    assert st.queue == [u] + st.queue[1..];
    if !IsNew(web, st, u) {
      assert Follows(web, web(u).value.finalUrl, w);
    }
  }

  lemma AdvanceCovers(web: Web, root: Url, budget: int, st: State, st': State)
    requires st.queue != [] && |st.entries| < budget && Stable(web) && Covered(web, root, st) && Looks(st)
    requires Advances(web, budget, st, st') && st'.queue == st.queue[1..] + Children(web, st, st.queue[0])
    requires |st'.entries| < budget
    ensures Covered(web, root, st')
  {
    var u := st.queue[0];
    assert st.queue == [u] + st.queue[1..];
    forall v, w | v in st'.visited && Follows(web, v, w) ensures w in st'.visited || w in st'.queue {
      if v !in st.visited {
        assert Follows(web, u, w);
        FrontFollowed(web, root, budget, st, st', w);
      }
    }
    forall v, loc | v in st'.visited && Lists(web, v, loc) ensures Entry(loc, web(v).value.finalUrl) in st'.entries {
      if v !in st.visited {
        assert Lists(web, u, loc);
        FrontListed(web, root, budget, st, st', loc);
      }
    }
  }

  lemma TurnCovers(web: Web, root: Url, budget: int, st: State)
    requires |st.queue| > 0 && |st.entries| < budget && Stable(web) && Covered(web, root, st)
    requires Turned(web, root, budget, st).Again?
    requires |Turned(web, root, budget, st).state.entries| < budget
    ensures Covered(web, root, Turned(web, root, budget, st).state)
  {
    TurnQueues(web, root, budget, st);
    if Looks(st) {
      TurnRecords(web, root, budget, st);
      TurnLists(web, root, budget, st);
      AdvanceCovers(web, root, budget, st, Turned(web, root, budget, st).state);
    } else {
      TurnSkips(web, root, budget, st);
      SkipCovers(web, root, st, Turned(web, root, budget, st).state);
    }
  }

  lemma {:induction false} TraversalCovers(web: Web, root: Url, budget: int, ctx: nat -> bool, n: nat, st: State)
    requires Bounded(st) && Stable(web) && Covered(web, root, st)
    requires Traverse(web, root, budget, ctx, n, st).1.None?
    requires |Traverse(web, root, budget, ctx, n, st).0.entries| < budget
    ensures var end := Traverse(web, root, budget, ctx, n, st).0;
            Covered(web, root, end) && end.queue == []
    decreases MAX_SITEMAP_FETCHES - |st.calls|, |st.queue|
  {
    if |st.queue| != 0 {
      EntriesOnlyGrow(web, root, budget, ctx, n, st);
      TurnKeepsBound(web, root, budget, st);
      var turn := Turned(web, root, budget, st);
      assert turn.Again?;
      EntriesOnlyGrow(web, root, budget, ctx, n + 1, turn.state);
      TurnCovers(web, root, budget, st);
      TraversalCovers(web, root, budget, ctx, n + 1, turn.state);
    }
  }

  lemma {:induction false} ReachedIsVisited(web: Web, root: Url, st: State, u: Url, n: nat)
    requires Covered(web, root, st) && st.queue == [] && Reached(web, root, u, n)
    ensures u in st.visited
    decreases n
  {
    if n > 0 {
      var v :| Reached(web, root, v, n - 1) && Follows(web, v, u);
      ReachedIsVisited(web, root, st, v, n - 1);
    }
  }

  /** On a web whose redirects are faithful, a traversal that ends without an error and below its
      budget has every URL of every URL set that the indexes lead to. */
  lemma NothingMissed(web: Web, root: Url, budget: int, ctx: nat -> bool, u: Url, n: nat, loc: Url)
    requires Stable(web) && Reached(web, root, u, n) && Lists(web, u, loc)
    requires Bounded(Begin(root))
    requires var (end, error) := Traverse(web, root, budget, ctx, 0, Begin(root)); error.None? && |end.entries| < budget
    ensures Entry(loc, web(u).value.finalUrl) in Traverse(web, root, budget, ctx, 0, Begin(root)).0.entries
  {
    TraversalCovers(web, root, budget, ctx, 0, Begin(root));
    ReachedIsVisited(web, root, Traverse(web, root, budget, ctx, 0, Begin(root)).0, u, n);
  }

  // ---------- Which error ends a traversal ----------

  /** The root is served and is neither an index nor a URL set. */
  predicate RootMalformed(web: Web, root: Url) {
    web(root).Some? && !IsIndex(web(root).value) && web(root).value.urls.None?
  }

  /** The last address served is an index that lists too much. */
  predicate Overfull(web: Web, end: State) {
    && end.calls != [] && web(end.calls[|end.calls| - 1]).Some? && IsIndex(web(end.calls[|end.calls| - 1]).value)
    && |end.visited| + |end.queue| + |web(end.calls[|end.calls| - 1]).value.index.value| > MAX_SITEMAP_FETCHES
  }

  /** What the possible ends look like once the root has been dealt with. */
  ghost predicate EndsWell(web: Web, budget: int, ctx: nat -> bool, end: State, error: Option<Failure>) {
    match error
    case None => end.queue == [] || |end.entries| >= budget
    case Some(Cancelled) => exists n :: ctx(n)
    case Some(TooManyQueued) => Overfull(web, end)
    case _ => false
  }

  lemma {:induction false} ChildrenNeverEndIt(web: Web, root: Url, budget: int, ctx: nat -> bool, n: nat, st: State)
    requires Bounded(st) && root in st.visited
    ensures var (end, error) := Traverse(web, root, budget, ctx, n, st); EndsWell(web, budget, ctx, end, error)
    decreases MAX_SITEMAP_FETCHES - |st.calls|, |st.queue|
  {
    if |st.queue| != 0 && |st.entries| < budget && !ctx(n) {
      TurnKeepsBound(web, root, budget, st);
      var turn := Turned(web, root, budget, st);
      if turn.Again? {
        ChildrenNeverEndIt(web, root, budget, ctx, n + 1, turn.state);
      }
    }
  }

  /** Which error ends a traversal: the root's, exactly when the root cannot be read or is neither index nor URL
      set. Otherwise it ends with an empty queue or a full budget, a cancellation, or an index that lists too
      much; no other address ever ends it. */
  lemma ErrorExactly(web: Web, root: Url, budget: int, ctx: nat -> bool)
    requires budget > 0 && !ctx(0) && Bounded(Begin(root))
    ensures var (end, error) := Traverse(web, root, budget, ctx, 0, Begin(root));
            && (error == Some(Unreadable) <==> web(root).None?)
            && (error == Some(Malformed) <==> RootMalformed(web, root))
            && (web(root).Some? && !RootMalformed(web, root) ==> EndsWell(web, budget, ctx, end, error))
  {
    var st := Begin(root);
    TurnKeepsBound(web, root, budget, st);
    var turn := Turned(web, root, budget, st);
    assert st.queue[0] == root && st.queue[1..] == [];
    if turn.Again? {
      ChildrenNeverEndIt(web, root, budget, ctx, 1, turn.state);
    }
  }

  // ---------- The order of calls and entries ----------

  function Finals(web: Web, served: seq<Url>): set<Url> {
    set u | u in served :: Final(web, u)
  }

  /** Behind these calls, of which some were served, the address counts: it can be read, and what it redirects
      to has neither been asked for nor been served before. */
  predicate Counts(web: Web, calls: seq<Url>, served: seq<Url>, u: Url) {
    web(u).Some? && (Final(web, u) == u || (Final(web, u) !in calls && Final(web, u) !in Finals(web, served)))
  }

  /** Of the addresses asked for those that count. */
  function Served(web: Web, calls: seq<Url>): seq<Url> {
    if calls == [] then []
    else
      var init, u := calls[..|calls| - 1], calls[|calls| - 1];
      var served := Served(web, init);
      if Counts(web, init, served, u) then served + [u] else served
  }

  /** Asked for, or served under this address. */
  predicate Met(web: Web, calls: seq<Url>, u: Url) {
    u in calls || u in Finals(web, Served(web, calls))
  }

  /** Everything that the served URL sets list, one after the other. */
  function ListedBy(web: Web, served: seq<Url>): seq<Entry> {
    if served == [] then []
    else
      var u := served[|served| - 1];
      ListedBy(web, served[..|served| - 1])
      + if web(u).Some? && !IsIndex(web(u).value) && web(u).value.urls.Some?
        then Sourced(web(u).value.urls.value, Final(web, u)) else []
  }

  /** The root and everything that the served indexes list, one after the other. */
  function QueuedBy(web: Web, root: Url, served: seq<Url>): seq<Url> {
    if served == [] then [root]
    else
      var u := served[|served| - 1];
      QueuedBy(web, root, served[..|served| - 1])
      + if web(u).Some? && IsIndex(web(u).value) then web(u).value.index.value else []
  }

  /** What is asked for when these addresses come up: each one not met before. */
  function CallsOf(web: Web, taken: seq<Url>): seq<Url> {
    if taken == [] then []
    else
      var calls, u := CallsOf(web, taken[..|taken| - 1]), taken[|taken| - 1];
      if Met(web, calls, u) then calls else calls + [u]
  }

  function Cut(entries: seq<Entry>, budget: int): seq<Entry> {
    if budget < 0 then [] else if |entries| <= budget then entries else entries[..budget]
  }

  /** What the loop has listed and counted follows from what it has asked for. */
  ghost predicate Accounts(web: Web, budget: int, st: State) {
    && (forall u :: u in st.visited <==> Met(web, st.calls, u))
    && st.count == |Served(web, st.calls)|
    && st.entries == Cut(ListedBy(web, Served(web, st.calls)), budget)
  }

  /** `taken` has come up so far: first come, first served. */
  ghost predicate InTurn(web: Web, root: Url, st: State, taken: seq<Url>) {
    taken + st.queue == QueuedBy(web, root, Served(web, st.calls)) && st.calls == CallsOf(web, taken)
  }

  lemma ServedNext(web: Web, calls: seq<Url>, u: Url)
    ensures var served := Served(web, calls);
            Served(web, calls + [u]) == if Counts(web, calls, served, u) then served + [u] else served
  {
    assert (calls + [u])[..|calls|] == calls;
  }

  lemma FinalsNext(web: Web, served: seq<Url>, u: Url)
    ensures Finals(web, served + [u]) == Finals(web, served) + {Final(web, u)}
  {
    forall x ensures x in Finals(web, served + [u]) <==> x in Finals(web, served) || x == Final(web, u) {
      if x in Finals(web, served) {
        var v :| v in served && Final(web, v) == x;
        assert v in served + [u];
      }
      assert u in served + [u];
    }
  }

  lemma ListedNext(web: Web, root: Url, served: seq<Url>, u: Url)
    requires web(u).Some?
    ensures ListedBy(web, served + [u]) == ListedBy(web, served)
              + if !IsIndex(web(u).value) && web(u).value.urls.Some?
                then Sourced(web(u).value.urls.value, Final(web, u)) else []
    ensures QueuedBy(web, root, served + [u]) == QueuedBy(web, root, served)
              + if IsIndex(web(u).value) then web(u).value.index.value else []
  {
    assert (served + [u])[..|served|] == served;
  }

  lemma CallsNext(web: Web, taken: seq<Url>, u: Url)
    ensures var calls := CallsOf(web, taken);
            CallsOf(web, taken + [u]) == if Met(web, calls, u) then calls else calls + [u]
  {
    assert (taken + [u])[..|taken|] == taken;
  }

  lemma MetNext(web: Web, calls: seq<Url>, u: Url, x: Url)
    ensures Met(web, calls + [u], x) <==>
              Met(web, calls, x) || x == u || (Counts(web, calls, Served(web, calls), u) && x == Final(web, u))
  {
    ServedNext(web, calls, u);
    FinalsNext(web, Served(web, calls), u);
  }

  lemma CutNext(all: seq<Entry>, budget: int, urls: seq<Url>, source: Url)
    requires |all| < budget
    ensures var remaining := budget - |all|;
            var parsed := if |urls| > remaining then urls[..remaining] else urls;
            all + Sourced(parsed, source) == Cut(all + Sourced(urls, source), budget)
  {
  }

  /** An address that is met already changes nothing. */
  lemma SkipAccounts(web: Web, budget: int, st: State, st': State)
    requires Accounts(web, budget, st) && st' == st.(queue := st'.queue)
    ensures Accounts(web, budget, st')
  {
  }

  lemma CallAccounts(web: Web, budget: int, st: State, st': State, u: Url)
    requires Accounts(web, budget, st) && |st.entries| < budget && u !in st.visited
    requires var served := Served(web, st.calls); var counts := Counts(web, st.calls, served, u);
             && st'.calls == st.calls + [u]
             && st'.visited == st.visited + {u} + (if counts then {Final(web, u)} else {})
             && st'.count == st.count + (if counts then 1 else 0)
             && st'.entries == if counts then Cut(ListedBy(web, served + [u]), budget) else st.entries
    ensures Accounts(web, budget, st')
  {
    ServedNext(web, st.calls, u);
    forall x ensures x in st'.visited <==> Met(web, st'.calls, x) {
      MetNext(web, st.calls, u, x);
    }
  }

  lemma NewCounts(web: Web, budget: int, st: State, u: Url)
    requires Accounts(web, budget, st) && u !in st.visited
    ensures IsNew(web, st, u) <==> Counts(web, st.calls, Served(web, st.calls), u)
  {
  }

  lemma AddedIsCut(web: Web, budget: int, st: State, u: Url)
    requires Accounts(web, budget, st) && |st.entries| < budget && u !in st.visited && IsNew(web, st, u)
    ensures st.entries + Added(web, budget, st, u) == Cut(ListedBy(web, Served(web, st.calls) + [u]), budget)
  {
    var served := Served(web, st.calls);
    ListedNext(web, u, served, u);
    if web(u).value.urls.Some? {
      CutNext(ListedBy(web, served), budget, web(u).value.urls.value, Final(web, u));
    }
  }

  lemma TurnAccounts(web: Web, root: Url, budget: int, st: State)
    requires |st.queue| > 0 && |st.entries| < budget && Accounts(web, budget, st)
    ensures Accounts(web, budget, Turned(web, root, budget, st).state)
  {
    var u, st' := st.queue[0], Turned(web, root, budget, st).state;
    if Looks(st) {
      TurnRecords(web, root, budget, st);
      TurnLists(web, root, budget, st);
      AdvanceAccounts(web, budget, st, st');
    } else {
      TurnSkips(web, root, budget, st);
      SkipAccounts(web, budget, st, st');
    }
  }

  lemma AdvanceAccounts(web: Web, budget: int, st: State, st': State)
    requires |st.queue| > 0 && |st.entries| < budget && Accounts(web, budget, st)
    requires Looks(st) && Advances(web, budget, st, st')
    ensures Accounts(web, budget, st')
  {
    var u := st.queue[0];
    NewCounts(web, budget, st, u);
    if IsNew(web, st, u) {
      AddedIsCut(web, budget, st, u);
    } else {
      assert st.entries + [] == st.entries;
    }
    CallAccounts(web, budget, st, st', u);
  }

  lemma SkippedInTurn(web: Web, root: Url, budget: int, st: State, st': State, taken: seq<Url>)
    requires |st.queue| > 0 && Accounts(web, budget, st) && InTurn(web, root, st, taken)
    requires st.queue[0] in st.visited && st' == st.(queue := st.queue[1..])
    ensures InTurn(web, root, st', taken + [st.queue[0]])
  {
    CallsNext(web, taken, st.queue[0]);
    assert taken + st.queue == (taken + [st.queue[0]]) + st.queue[1..];
  }

  lemma CalledInTurn(web: Web, root: Url, budget: int, st: State, st': State, taken: seq<Url>)
    requires |st.queue| > 0 && Accounts(web, budget, st) && InTurn(web, root, st, taken)
    requires st.queue[0] !in st.visited && st'.calls == st.calls + [st.queue[0]]
    requires st'.queue == st.queue[1..] + Children(web, st, st.queue[0])
    ensures InTurn(web, root, st', taken + [st.queue[0]])
  {
    var u := st.queue[0];
    CallsNext(web, taken, u);
    QueuedNext(web, root, budget, st, u);
    Requeue(taken, u, st.queue[1..], Children(web, st, u));
    assert st.queue == [u] + st.queue[1..];
  }

  lemma Requeue(taken: seq<Url>, u: Url, rest: seq<Url>, more: seq<Url>)
    ensures taken + ([u] + rest) + more == (taken + [u]) + (rest + more)
  {
  }

  lemma QueuedNext(web: Web, root: Url, budget: int, st: State, u: Url)
    requires Accounts(web, budget, st) && u !in st.visited
    ensures QueuedBy(web, root, Served(web, st.calls + [u])) ==
            QueuedBy(web, root, Served(web, st.calls)) + Children(web, st, u)
  {
    NewCounts(web, budget, st, u);
    ServedNext(web, st.calls, u);
    if IsNew(web, st, u) {
      ListedNext(web, root, Served(web, st.calls), u);
    }
  }

  lemma TurnInTurn(web: Web, root: Url, budget: int, st: State, taken: seq<Url>)
    requires |st.queue| > 0 && |st.entries| < budget && Accounts(web, budget, st) && InTurn(web, root, st, taken)
    requires Turned(web, root, budget, st).Again?
    ensures InTurn(web, root, Turned(web, root, budget, st).state, taken + [st.queue[0]])
  {
    var u, st' := st.queue[0], Turned(web, root, budget, st).state;
    TurnQueues(web, root, budget, st);
    if Looks(st) {
      TurnRecords(web, root, budget, st);
      CalledInTurn(web, root, budget, st, st', taken);
    } else {
      TurnSkips(web, root, budget, st);
      SkippedInTurn(web, root, budget, st, st', taken);
    }
  }

  /** Where the loop goes on after one turn, if it does. */
  ghost predicate GoesOn(web: Web, root: Url, budget: int, ctx: nat -> bool, n: nat, st: State, next: State)
    requires Bounded(st)
  {
    |st.queue| > 0 && |st.entries| < budget && !ctx(n) && Turned(web, root, budget, st) == Again(next)
  }

  lemma TraverseOn(web: Web, root: Url, budget: int, ctx: nat -> bool, n: nat, st: State, next: State)
    requires Bounded(st) && GoesOn(web, root, budget, ctx, n, st, next)
    ensures Bounded(next)
    ensures Traverse(web, root, budget, ctx, n, st) == Traverse(web, root, budget, ctx, n + 1, next)
    ensures next.calls == st.calls ==> |next.queue| < |st.queue|
    ensures next.calls != st.calls ==> |next.calls| > |st.calls|
  {
    TurnKeepsBound(web, root, budget, st);
    TurnQueues(web, root, budget, st);
    if Looks(st) {
      TurnRecords(web, root, budget, st);
    } else {
      TurnSkips(web, root, budget, st);
    }
  }

  lemma {:induction false} TraversalAccounts(web: Web, root: Url, budget: int, ctx: nat -> bool, n: nat, st: State)
    requires Bounded(st) && Accounts(web, budget, st)
    ensures Accounts(web, budget, Traverse(web, root, budget, ctx, n, st).0)
    decreases MAX_SITEMAP_FETCHES - |st.calls|, |st.queue|
  {
    if |st.queue| > 0 && |st.entries| < budget && !ctx(n) {
      TurnAccounts(web, root, budget, st);
      var turn := Turned(web, root, budget, st);
      if turn.Again? {
        TraverseOn(web, root, budget, ctx, n, st, turn.state);
        TraversalAccounts(web, root, budget, ctx, n + 1, turn.state);
      }
    }
  }

  /** Addresses come up in the order in which the root and the served indexes list them, and each is asked for
      when it has not been met before. */
  lemma {:induction false} TraversalInOrder(web: Web, root: Url, budget: int, ctx: nat -> bool, n: nat, st: State,
      taken: seq<Url>) returns (all: seq<Url>)
    requires Bounded(st) && Accounts(web, budget, st) && InTurn(web, root, st, taken)
    ensures var (end, error) := Traverse(web, root, budget, ctx, n, st);
            error.None? || error == Some(Cancelled) ==> InTurn(web, root, end, all)
    decreases MAX_SITEMAP_FETCHES - |st.calls|, |st.queue|
  {
    all := taken;
    if |st.queue| > 0 && |st.entries| < budget && !ctx(n) {
      var turn := Turned(web, root, budget, st);
      if turn.Again? {
        TurnAccounts(web, root, budget, st);
        TurnInTurn(web, root, budget, st, taken);
        TraverseOn(web, root, budget, ctx, n, st, turn.state);
        all := TraversalInOrder(web, root, budget, ctx, n + 1, turn.state, taken + [st.queue[0]]);
      } else {
        StopsWithError(web, root, budget, ctx, n, st);
      }
    }
  }

  lemma StopsWithError(web: Web, root: Url, budget: int, ctx: nat -> bool, n: nat, st: State)
    requires Bounded(st) && |st.queue| > 0 && |st.entries| < budget && !ctx(n)
    requires Turned(web, root, budget, st).Stop?
    ensures var error := Traverse(web, root, budget, ctx, n, st).1; error.Some? && error != Some(Cancelled)
  {
  }

  /** The traversal in its order: the count is the number of addresses served, the entries are what these list,
      one after the other, up to the budget, and addresses are asked for first come, first served. At an end
      with nothing queued, everything that the root and the served indexes list has come up. */
  lemma FirstComeFirstServed(web: Web, root: Url, budget: int, ctx: nat -> bool) returns (taken: seq<Url>)
    requires Bounded(Begin(root))
    ensures var (end, error) := Traverse(web, root, budget, ctx, 0, Begin(root));
            var served := Served(web, end.calls);
            && end.count == |served| && end.entries == Cut(ListedBy(web, served), budget)
            && (error.None? || error == Some(Cancelled) ==>
                  && taken <= QueuedBy(web, root, served) && end.calls == CallsOf(web, taken)
                  && (end.queue == [] ==> taken == QueuedBy(web, root, served)))
  {
    TraversalAccounts(web, root, budget, ctx, 0, Begin(root));
    taken := TraversalInOrder(web, root, budget, ctx, 0, Begin(root), []);
  }

  lemma CountsNext(web: Web, calls: seq<Url>, u: Url)
    requires Stable(web) && !Met(web, calls, u)
    requires Finals(web, Served(web, calls)) == Finals(web, Readable(web, calls))
    requires |Served(web, calls)| == |Finals(web, Served(web, calls))|
    ensures Finals(web, Served(web, calls + [u])) == Finals(web, Readable(web, calls + [u]))
    ensures |Served(web, calls + [u])| == |Finals(web, Served(web, calls + [u]))|
  {
    ServedNext(web, calls, u);
    ReadableNext(web, calls, u);
    FinalsNext(web, Served(web, calls), u);
    FinalsNext(web, Readable(web, calls), u);
    var finals, f := Finals(web, Served(web, calls)), Final(web, u);
    if web(u).Some? && f in calls {
      FinalOfServed(web, calls, u);
    }
    if web(u).Some? {
      assert Counts(web, calls, Served(web, calls), u) <==> f !in finals;
      assert f in finals ==> finals + {f} == finals;
    }
  }

  /** On a web whose redirects are faithful, the count is that of the different final addresses. */
  lemma {:induction false} CountsFinals(web: Web, taken: seq<Url>)
    requires Stable(web)
    ensures var calls := CallsOf(web, taken);
            && Finals(web, Served(web, calls)) == Finals(web, Readable(web, calls))
            && |Served(web, calls)| == |Finals(web, Served(web, calls))|
  {
    if taken != [] {
      var init, u := taken[..|taken| - 1], taken[|taken| - 1];
      var calls := CallsOf(web, init);
      CountsFinals(web, init);
      if !Met(web, calls, u) {
        CountsNext(web, calls, u);
      }
    }
  }

  function Readable(web: Web, calls: seq<Url>): seq<Url> {
    if calls == [] then []
    else
      var u := calls[|calls| - 1];
      Readable(web, calls[..|calls| - 1]) + if web(u).Some? then [u] else []
  }

  lemma ReadableNext(web: Web, calls: seq<Url>, u: Url)
    ensures Readable(web, calls + [u]) == Readable(web, calls) + if web(u).Some? then [u] else []
  {
    assert (calls + [u])[..|calls|] == calls;
  }

  lemma {:induction false} ReadableHas(web: Web, calls: seq<Url>, u: Url)
    requires u in calls && web(u).Some?
    ensures u in Readable(web, calls)
  {
    if u != calls[|calls| - 1] {
      ReadableHas(web, calls[..|calls| - 1], u);
    }
  }

  /** Where a redirect leads back to an address asked for before, that one is its own final address. */
  lemma FinalOfServed(web: Web, calls: seq<Url>, u: Url)
    requires Stable(web) && web(u).Some? && Final(web, u) in calls
    ensures Final(web, u) in Finals(web, Readable(web, calls))
  {
    var f := Final(web, u);
    assert web(f) == web(u) && Final(web, f) == f;
    ReadableHas(web, calls, f);
  }

  // ---------- The loop ----------

  method FetchAndParse(web: Web, sitemapUrl: Url, maxEntries: int, ctx: nat -> bool)
    returns (outcome: Outcome, calls: seq<Url>)
    ensures |calls| <= MAX_SITEMAP_FETCHES && Distinct(calls)
    ensures |outcome.entries| <= maxEntries || outcome.entries == []
    ensures outcome.error != Some(TooManyFetched)
    ensures Bounded(Begin(sitemapUrl))
    ensures var (end, error) := Traverse(web, sitemapUrl, maxEntries, ctx, 0, Begin(sitemapUrl));
            outcome == Outcome(end.entries, end.count, error) && calls == end.calls
  {
    ghost var st := Begin(sitemapUrl);
    ghost var whole := Traverse(web, sitemapUrl, maxEntries, ctx, 0, st);
    TraversalIsBounded(web, sitemapUrl, maxEntries, ctx, 0, st);
    var entries: seq<Entry> := [];
    var visited: set<Url> := {};
    var queue := [sitemapUrl];
    var sitemapCount := 0;
    calls := [];
    var turn := 0;
    while |queue| > 0 && |entries| < maxEntries
      invariant st == State(queue, visited, entries, sitemapCount, calls) && Bounded(st)
      invariant whole == Traverse(web, sitemapUrl, maxEntries, ctx, turn, st)
      decreases MAX_SITEMAP_FETCHES - |calls|, |queue|
    {
      if ctx(turn) {
        return Outcome(entries, sitemapCount, Some(Cancelled)), calls;
      }
      if sitemapCount >= MAX_SITEMAP_FETCHES {
        assert false;
      }
      TurnKeepsBound(web, sitemapUrl, maxEntries, st);
      st := Turned(web, sitemapUrl, maxEntries, st).state;
      turn := turn + 1;
      var current := queue[0];
      queue := queue[1..];
      if current in visited {
        continue;
      }
      visited := visited + {current};
      calls := calls + [current];
      var fetched := web(current);
      if fetched.None? {
        if current == sitemapUrl {
          return Outcome(entries, sitemapCount, Some(Unreadable)), calls;
        }
        continue;
      }
      var doc := fetched.value;
      if doc.finalUrl != current && doc.finalUrl in visited {
        continue;
      }
      visited := visited + {doc.finalUrl};
      sitemapCount := sitemapCount + 1;
      if IsIndex(doc) {
        if |visited| + |queue| + |doc.index.value| > MAX_SITEMAP_FETCHES {
          return Outcome(entries, sitemapCount, Some(TooManyQueued)), calls;
        }
        queue := queue + doc.index.value;
        continue;
      }
      if doc.urls.None? {
        if current == sitemapUrl {
          return Outcome(entries, sitemapCount, Some(Malformed)), calls;
        }
        continue;
      }
      var parsed := doc.urls.value;
      if |parsed| > maxEntries - |entries| {
        parsed := parsed[..maxEntries - |entries|];
      }
      entries := entries + Sourced(parsed, doc.finalUrl);
    }
    outcome := Outcome(entries, sitemapCount, None);
  }
}
