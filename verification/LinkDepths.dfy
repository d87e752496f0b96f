/** Depth recomputation after a crawl: a breadth-first search from the seed pages over internal links. */
module LinkDepths {
  import opened GoText

  /** A normalized URL, named by a number. */
  datatype Url = Url(id: int)

  datatype PageNode = PageNode(urlId: int, depth: int)

  datatype Graph = Graph(nodes: set<Url>, adj: map<Url, seq<Url>>, seeds: set<Url>)

  predicate Link(g: Graph, source: Url, target: Url) {
    source in g.adj && target in g.adj[source] && target in g.nodes
  }

  /** A seed page leads to `u` by exactly `n` links between pages. */
  ghost predicate Walk(g: Graph, u: Url, n: nat)
    decreases n
  {
    if n == 0 then u in g.seeds && u in g.nodes
    else exists v :: Walk(g, v, n - 1) && Link(g, v, u)
  }

  ghost predicate Reachable(g: Graph, u: Url) {
    exists n: nat :: Walk(g, u, n)
  }

  /** `d` is the least number of links from any seed page to `u`. */
  ghost predicate Distance(g: Graph, u: Url, d: nat) {
    Walk(g, u, d) && forall n: nat :: Walk(g, u, n) ==> d <= n
  }

  /** Any assignment that starts the seeds at 0 and never grows by more than 1 along a link out of a
      node of `closed` is at most the distance, as far as the open nodes are no nearer than `n`. */
  lemma {:induction false} BoundedByWalks(g: Graph, depths: map<Url, nat>, open: set<Url>, u: Url, n: nat)
    requires forall s :: s in g.seeds && s in g.nodes ==> s in depths && depths[s] == 0
    requires forall v, w :: v in depths && v !in open && Link(g, v, w) ==> w in depths && depths[w] <= depths[v] + 1
    requires forall v :: v in depths && v in open ==> n <= depths[v]
    requires Walk(g, u, n)
    ensures u in depths && depths[u] <= n
    decreases n
  {
    if n > 0 {
      var v :| Walk(g, v, n - 1) && Link(g, v, u);
      BoundedByWalks(g, depths, open, v, n - 1);
    }
  }

  // ---------- The search ----------

  ghost predicate Sorted(queue: seq<Url>, depths: map<Url, nat>) {
    && (forall i :: 0 <= i < |queue| ==> queue[i] in depths)
    && (forall i, j :: 0 <= i <= j < |queue| ==> depths[queue[i]] <= depths[queue[j]])
  }

  /** What the search knows: depths are lengths of real walks, seeds are at 0, and the nodes that have
      left the queue have handed their depth on. */
  ghost predicate Known(g: Graph, depths: map<Url, nat>, open: set<Url>) {
    && (forall u :: u in depths ==> u in g.nodes && Walk(g, u, depths[u]))
    && (forall s :: s in g.seeds && s in g.nodes ==> s in depths && depths[s] == 0)
    && (forall v, w :: v in depths && v !in open && Link(g, v, w) ==> w in depths && depths[w] <= depths[v] + 1)
  }

  ghost predicate Within(depths: map<Url, nat>, bound: nat) {
    forall u :: u in depths ==> depths[u] <= bound
  }

  function Elements(queue: seq<Url>): set<Url> {
    set u | u in queue
  }

  method RecomputePageDepths(pages: map<Url, PageNode>, adj: map<Url, seq<Url>>, seeds: seq<Option<Url>>)
    returns (updated: map<Url, PageNode>)
    ensures updated.Keys == pages.Keys
    ensures forall u :: u in pages ==> updated[u].urlId == pages[u].urlId
    ensures var g := Graph(pages.Keys, adj, set s | s in seeds && s.Some? :: s.value);
            forall u :: u in pages ==>
              if Reachable(g, u) then updated[u].depth >= 0 && Distance(g, u, updated[u].depth)
              else updated[u].depth == pages[u].depth
  {
    ghost var g := Graph(pages.Keys, adj, set s | s in seeds && s.Some? :: s.value);
    if |pages| == 0 {
      return pages;
    }
    var depths := Search(pages, adj, seeds);
    updated := pages;
    var todo := pages.Keys;
    while |todo| != 0
      invariant todo <= pages.Keys && updated.Keys == pages.Keys
      invariant forall u :: u in pages ==> updated[u].urlId == pages[u].urlId
      invariant forall u :: u in todo ==> updated[u] == pages[u]
      invariant forall u :: u in pages && u !in todo ==>
                  updated[u].depth == if u in depths then depths[u] else pages[u].depth
    {
      var url :| url in todo;
      todo := todo - {url};
      var depth := pages[url].depth;
      if url in depths {
        depth := depths[url];
      }
      updated := updated[url := PageNode(pages[url].urlId, depth)];
    }
    forall u, n: nat | u in pages && Walk(g, u, n)
      ensures u in depths && depths[u] <= n
    {
      BoundedByWalks(g, depths, {}, u, n);
    }
  }

  /** The state of the search while `front`, the node just taken from the queue, is being expanded. */
  ghost predicate Expanding(g: Graph, depths: map<Url, nat>, front: Url, queue: seq<Url>) {
    && front in depths
    && Sorted([front] + queue, depths)
    && Known(g, depths, Elements([front] + queue))
    && Within(depths, depths[front] + 1)
  }

  lemma StaysSorted(queue: seq<Url>, depths: map<Url, nat>, next: Url, d: nat)
    requires Sorted(queue, depths) && next !in depths && Within(depths, d)
    ensures Sorted(queue + [next], depths[next := d])
  {
    var queue', depths' := queue + [next], depths[next := d];
    forall i | 0 <= i < |queue'|
      ensures queue'[i] in depths' && depths'[queue'[i]] <= d
      ensures i < |queue| ==> queue'[i] == queue[i] && depths'[queue'[i]] == depths[queue[i]]
    {
      if i < |queue| {
        assert queue[i] in depths;
      }
    }
  }

  lemma StaysKnown(g: Graph, depths: map<Url, nat>, front: Url, open: set<Url>, next: Url, d: nat)
    requires Known(g, depths, open) && front in depths && depths[front] == d
    requires front in open && Link(g, front, next) && next !in depths
    ensures Known(g, depths[next := d + 1], open + {next})
  {
    assert Walk(g, next, d + 1);
  }

  lemma AddLink(g: Graph, depths: map<Url, nat>, front: Url, queue: seq<Url>, next: Url, d: nat)
    requires Expanding(g, depths, front, queue) && d == depths[front]
    requires Link(g, front, next) && next !in depths
    ensures Expanding(g, depths[next := d + 1], front, queue + [next])
  {
    var all, all' := [front] + queue, [front] + (queue + [next]);
    assert all' == all + [next] && all[0] == front;
    StaysSorted(all, depths, next, d + 1);
    assert Elements(all + [next]) == Elements(all) + {next};
    assert front in Elements(all);
    StaysKnown(g, depths, front, Elements(all), next, d);
  }

  lemma FrontDone(g: Graph, depths: map<Url, nat>, front: Url, queue: seq<Url>)
    requires Expanding(g, depths, front, queue)
    requires forall w :: Link(g, front, w) ==> w in depths
    ensures Sorted(queue, depths) && Known(g, depths, Elements(queue))
    ensures |queue| > 0 ==> Within(depths, depths[queue[0]] + 1)
  {
    var all := [front] + queue;
    forall i | 0 <= i < |queue| ensures all[i + 1] == queue[i] {
    }
    assert all[0] == front;
  }

  lemma FrontTaken(g: Graph, depths: map<Url, nat>, queue: seq<Url>)
    requires |queue| > 0 && Sorted(queue, depths) && Known(g, depths, Elements(queue))
    requires Within(depths, depths[queue[0]] + 1)
    ensures Expanding(g, depths, queue[0], queue[1..])
  {
    assert [queue[0]] + queue[1..] == queue;
  }

  /** The inner loop: queues every page not seen before that `front` links to. */
  method Expand(ghost g: Graph, pages: map<Url, PageNode>, links: seq<Url>, front: Url, depths0: map<Url, nat>,
      queue0: seq<Url>)
    returns (depths: map<Url, nat>, queue: seq<Url>)
    requires g.nodes == pages.Keys && Expanding(g, depths0, front, queue0)
    requires forall w :: w in links && w in pages <==> Link(g, front, w)
    ensures Expanding(g, depths, front, queue)
    ensures forall w :: Link(g, front, w) ==> w in depths
    ensures depths0.Keys <= depths.Keys <= pages.Keys
    ensures depths.Keys == depths0.Keys ==> queue == queue0
  {
    depths, queue := depths0, queue0;
    var currentDepth := depths[front];
    for i := 0 to |links|
      invariant Expanding(g, depths, front, queue) && depths[front] == currentDepth
      invariant forall w :: w in links[..i] && w in pages ==> w in depths
      invariant depths0.Keys <= depths.Keys
      invariant depths.Keys == depths0.Keys ==> queue == queue0
    {
      var next := links[i];
      if next !in pages || next in depths {
        continue;
      }
      AddLink(g, depths, front, queue, next, currentDepth);
      depths := depths[next := currentDepth + 1];
      queue := queue + [next];
    }
  }

  method Search(pages: map<Url, PageNode>, adj: map<Url, seq<Url>>, seeds: seq<Option<Url>>)
    returns (depths: map<Url, nat>)
    ensures Known(Graph(pages.Keys, adj, set s | s in seeds && s.Some? :: s.value), depths, {})
  {
    ghost var g := Graph(pages.Keys, adj, set s | s in seeds && s.Some? :: s.value);
    depths := map[];
    var queue: seq<Url> := [];
    for i := 0 to |seeds|
      invariant forall u :: u in depths <==> u in pages && Some(u) in seeds[..i]
      invariant forall u :: u in depths ==> depths[u] == 0
      invariant forall k :: 0 <= k < |queue| ==> queue[k] in depths
      invariant forall u :: u in depths ==> u in queue
    {
      if seeds[i].None? || seeds[i].value !in pages || seeds[i].value in depths {
        continue;
      }
      depths := depths[seeds[i].value := 0];
      queue := queue + [seeds[i].value];
    }
    assert seeds[..|seeds|] == seeds;
    assert forall s :: s in g.seeds <==> Some(s) in seeds;
    assert forall u :: u in depths ==> u in g.nodes;
    assert forall k :: 0 <= k < |queue| ==> queue[k] in depths && depths[queue[k]] == 0;

    while |queue| > 0
      invariant Sorted(queue, depths) && Known(g, depths, Elements(queue))
      invariant |queue| > 0 ==> Within(depths, depths[queue[0]] + 1)
      invariant depths.Keys <= pages.Keys
      decreases pages.Keys - depths.Keys, |queue|
    {
      var current := queue[0];
      FrontTaken(g, depths, queue);
      queue := queue[1..];
      var links := if current in adj then adj[current] else [];
      depths, queue := Expand(g, pages, links, current, depths, queue);
      FrontDone(g, depths, current, queue);
    }
    assert Elements([]) == {};
  }
}
