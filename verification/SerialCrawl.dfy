/** A crawl that handles one page at a time, without caps, filters or sitemaps, where every URL is a
    page: the frontier then is a breadth-first search, and recomputing the depths changes nothing. */
module SerialCrawl {
  import opened GoText
  import opened Frontier
  import opened LinkDepths

  datatype Site = Site(urls: set<Url>, adj: map<Url, seq<Url>>, seeds: seq<Url>, name: Url -> string,
      host: Url -> string)

  predicate Closed(site: Site) {
    && (forall u :: u in site.seeds ==> u in site.urls)
    && (forall u, w :: u in site.adj && w in site.adj[u] ==> w in site.urls)
  }

  ghost function LinkGraph(site: Site, nodes: set<Url>): Graph {
    Graph(nodes, site.adj, set u | u in site.seeds)
  }

  /** `given` records the depth at which every URL entered the frontier, `order` the pops. */
  datatype Crawl = Crawl(frontier: Contents, given: map<Url, nat>, order: seq<Item>)

  function ItemFor(site: Site, u: Url, d: nat): Item {
    Item(u.id, site.name(u), site.host(u), d)
  }

  function LinksOf(site: Site, u: Url): seq<Url> {
    if u in site.adj then site.adj[u] else []
  }

  function Offer(site: Site, c: Crawl, u: Url, d: nat): Crawl {
    Crawl(Pushed(c.frontier, ItemFor(site, u, d)), if u in c.given then c.given else c.given[u := d], c.order)
  }

  /** Pushes the targets at depth `d`, except for links from a page to itself. */
  function OfferAll(site: Site, c: Crawl, targets: seq<Url>, self: Option<Url>, d: nat): Crawl
    decreases |targets|
  {
    if targets == [] then c
    else OfferAll(site, if self == Some(targets[0]) then c else Offer(site, c, targets[0], d), targets[1..], self, d)
  }

  function Start(site: Site): Crawl {
    OfferAll(site, Crawl(EMPTY, map[], []), site.seeds, None, 0)
  }

  /** One turn: pop, fetch, push the links one level deeper. */
  ghost predicate Turn(site: Site, c: Crawl, item: Item, f: Contents, c': Crawl) {
    && item.depth >= 0
    && Popped(c.frontier, Some(item), f)
    && LinksOffered(site, Crawl(f, c.given, c.order + [item]), Url(item.urlId), item.depth, c')
  }

  ghost predicate LinksOffered(site: Site, c: Crawl, u: Url, d: nat, c': Crawl) {
    c' == OfferAll(site, c, LinksOf(site, u), Some(u), d + 1)
  }

  ghost predicate Moves(site: Site, c: Crawl, c': Crawl) {
    exists item, f :: Turn(site, c, item, f, c')
  }

  ghost predicate Run(site: Site, states: seq<Crawl>) {
    |states| > 0 && states[0] == Start(site)
    && forall i :: 0 < i < |states| ==> Moves(site, states[i - 1], states[i])
  }

  // ---------- What every run keeps ----------

  function Level(order: seq<Item>): int {
    if order == [] then 0 else order[|order| - 1].depth
  }

  ghost function OpenUrls(f: Contents): set<Url> {
    set item | item in f.items :: Url(item.urlId)
  }

  ghost predicate Dated(c: Crawl, item: Item) {
    Url(item.urlId) in c.given && item.depth == c.given[Url(item.urlId)]
  }

  /** `extra` names the page whose links are just being pushed. */
  ghost predicate Sane(ways: Ways, c: Crawl, extra: set<Url>) {
    Booked(c) && Levelled(c) && Founded(ways, c.given, OpenUrls(c.frontier) + extra)
  }

  ghost predicate Booked(c: Crawl) {
    && (forall u :: u in c.given <==> u.id in c.frontier.seen)
    && (forall item :: item in c.frontier.items ==> Dated(c, item))
    && (forall i :: 0 <= i < |c.order| ==> Dated(c, c.order[i]))
    && (forall u :: u in c.given ==> u in OpenUrls(c.frontier) || Taken(c, u))
  }

  ghost predicate Levelled(c: Crawl) {
    && (forall item :: item in c.frontier.items ==> Level(c.order) <= item.depth)
    && (forall i, j :: 0 <= i <= j < |c.order| ==> c.order[i].depth <= c.order[j].depth)
    && (forall u :: u in c.given ==> c.given[u] <= Level(c.order) + 1)
  }

  ghost predicate Taken(c: Crawl, u: Url) {
    exists i :: 0 <= i < |c.order| && c.order[i].urlId == u.id
  }

  /** Walks and links, with their definitions out of sight. */
  datatype Ways = Ways(walk: (Url, nat) -> bool, link: (Url, Url) -> bool)

  ghost function WaysOf(g: Graph): Ways {
    Ways((u: Url, n: nat) => Walk(g, u, n), (v: Url, w: Url) => Link(g, v, w))
  }

  ghost predicate Founded(ways: Ways, given: map<Url, nat>, open: set<Url>) {
    && (forall u :: u in given ==> ways.walk(u, given[u]))
    && (forall v, w :: v in given && v !in open && ways.link(v, w) ==> w in given && given[w] <= given[v] + 1)
  }

  lemma OfferOpens(site: Site, c: Crawl, u: Url, d: nat)
    requires u.id !in c.frontier.seen
    ensures var c' := Offer(site, c, u, d);
            && OpenUrls(c'.frontier) == OpenUrls(c.frontier) + {u}
            && forall item :: item in c'.frontier.items <==> item == ItemFor(site, u, d) || item in c.frontier.items
  {
    var c', added := Offer(site, c, u, d), ItemFor(site, u, d);
    assert c'.frontier.items == c.frontier.items + multiset{added};
    assert added in c'.frontier.items && Url(added.urlId) == u;
    forall v | v in OpenUrls(c'.frontier) ensures v in OpenUrls(c.frontier) + {u} {
      var item :| item in c'.frontier.items && Url(item.urlId) == v;
    }
    forall v | v in OpenUrls(c.frontier) ensures v in OpenUrls(c'.frontier) {
      var item :| item in c.frontier.items && Url(item.urlId) == v;
      assert item in c'.frontier.items;
    }
  }

  lemma OfferBooks(site: Site, c: Crawl, u: Url, d: nat)
    requires Booked(c) && u !in c.given
    ensures Booked(Offer(site, c, u, d))
  {
    var c' := Offer(site, c, u, d);
    OfferOpens(site, c, u, d);
    forall item | item in c'.frontier.items ensures Dated(c', item) {
      if item != ItemFor(site, u, d) {
        assert Dated(c, item);
      }
    }
    forall i | 0 <= i < |c'.order| ensures Dated(c', c'.order[i]) {
      assert Dated(c, c.order[i]);
    }
    forall v | v in c'.given ensures v in OpenUrls(c'.frontier) || Taken(c', v) {
      if v != u && Taken(c, v) {
        var i :| 0 <= i < |c.order| && c.order[i].urlId == v.id;
        assert c'.order[i].urlId == v.id;
      }
    }
  }

  lemma OfferFounds(ways: Ways, given: map<Url, nat>, open: set<Url>, u: Url, d: nat)
    requires Founded(ways, given, open) && ways.walk(u, d) && u !in given
    ensures Founded(ways, given[u := d], open + {u})
  {
  }

  lemma OfferLevels(site: Site, c: Crawl, u: Url, d: nat)
    requires Levelled(c) && u.id !in c.frontier.seen && Level(c.order) <= d <= Level(c.order) + 1
    ensures Levelled(Offer(site, c, u, d))
  {
    OfferOpens(site, c, u, d);
  }

  lemma OfferKeeps(site: Site, ways: Ways, c: Crawl, u: Url, d: nat, extra: set<Url>)
    requires Sane(ways, c, extra) && ways.walk(u, d)
    requires Level(c.order) <= d <= Level(c.order) + 1
    ensures Sane(ways, Offer(site, c, u, d), extra)
  {
    if u in c.given {
      assert Offer(site, c, u, d) == c;
    } else {
      OfferBooks(site, c, u, d);
      OfferLevels(site, c, u, d);
      OfferOpens(site, c, u, d);
      OfferFounds(ways, c.given, OpenUrls(c.frontier) + extra, u, d);
      assert OpenUrls(c.frontier) + {u} + extra == OpenUrls(c.frontier) + extra + {u};
    }
  }

  lemma {:induction false} OfferAllKeeps(site: Site, ways: Ways, c: Crawl, targets: seq<Url>, self: Option<Url>, d: nat,
                                         extra: set<Url>, c': Crawl)
    requires Sane(ways, c, extra) && Level(c.order) <= d <= Level(c.order) + 1
    requires forall t :: t in targets ==> ways.walk(t, d)
    requires c' == OfferAll(site, c, targets, self, d)
    ensures Sane(ways, c', extra)
    decreases |targets|
  {
    if targets != [] {
      var t := targets[0];
      OfferKeeps(site, ways, c, t, d, extra);
      var c1 := if self == Some(t) then c else Offer(site, c, t, d);
      OfferAllKeeps(site, ways, c1, targets[1..], self, d, extra, c');
    }
  }

  lemma {:induction false} OfferAllGives(site: Site, c: Crawl, targets: seq<Url>, self: Option<Url>, d: nat, c': Crawl)
    requires c' == OfferAll(site, c, targets, self, d)
    ensures c'.order == c.order
    ensures forall u :: u in c.given ==> u in c'.given && c'.given[u] == c.given[u]
    ensures forall t :: t in targets && self != Some(t) ==> t in c'.given
    ensures forall u :: u in c'.given && u !in c.given ==> c'.given[u] == d
    decreases |targets|
  {
    if targets != [] {
      var t := targets[0];
      var c1 := if self == Some(t) then c else Offer(site, c, t, d);
      OfferAllGives(site, c1, targets[1..], self, d, c');
      assert targets == [t] + targets[1..];
    }
  }

  /** All that the crawl needs to know about walks and links. */
  ghost predicate Fits(site: Site, ways: Ways) {
    && (forall s :: s in site.seeds ==> ways.walk(s, 0))
    && (forall u, d: nat :: Extends(site, ways, u, d))
    && (forall u, t :: ways.link(u, t) ==> t in LinksOf(site, u))
  }

  ghost predicate Extends(site: Site, ways: Ways, u: Url, d: nat) {
    ways.walk(u, d) ==> forall t :: t in LinksOf(site, u) ==> ways.walk(t, d + 1)
  }

  lemma WaysFit(site: Site)
    requires Closed(site)
    ensures Fits(site, WaysOf(LinkGraph(site, site.urls)))
  {
    var g := LinkGraph(site, site.urls);
    forall u, d: nat ensures Extends(site, WaysOf(g), u, d) {
      forall t | Walk(g, u, d) && t in LinksOf(site, u) ensures Walk(g, t, d + 1) {
        assert Link(g, u, t);
      }
    }
  }

  lemma StartSane(site: Site, ways: Ways)
    requires Fits(site, ways)
    ensures Sane(ways, Start(site), {})
  {
    OfferAllKeeps(site, ways, Crawl(EMPTY, map[], []), site.seeds, None, 0, {}, Start(site));
  }

  lemma PopOpens(c: Crawl, item: Item, f: Contents)
    requires Popped(c.frontier, Some(item), f)
    ensures OpenUrls(c.frontier) == OpenUrls(f) + {Url(item.urlId)}
    ensures forall x :: x in f.items ==> x in c.frontier.items
  {
    assert c.frontier.items == f.items + multiset{item};
    forall v | v in OpenUrls(c.frontier) ensures v in OpenUrls(f) + {Url(item.urlId)} {
      var x :| x in c.frontier.items && Url(x.urlId) == v;
      assert x == item || x in f.items;
    }
    forall v | v in OpenUrls(f) ensures v in OpenUrls(c.frontier) {
      var x :| x in f.items && Url(x.urlId) == v;
      assert x in c.frontier.items;
    }
  }

  lemma PopBooks(c: Crawl, item: Item, f: Contents)
    requires Booked(c) && Popped(c.frontier, Some(item), f)
    ensures Booked(Crawl(f, c.given, c.order + [item]))
  {
    var c1 := Crawl(f, c.given, c.order + [item]);
    PopOpens(c, item, f);
    forall x | x in f.items ensures Dated(c1, x) {
      assert Dated(c, x);
    }
    forall i | 0 <= i < |c1.order| ensures Dated(c1, c1.order[i]) {
      assert Dated(c, if i < |c.order| then c.order[i] else item);
    }
    forall v | v in c1.given ensures v in OpenUrls(f) || Taken(c1, v) {
      if v == Url(item.urlId) {
        assert c1.order[|c.order|].urlId == v.id;
      } else if Taken(c, v) {
        var i :| 0 <= i < |c.order| && c.order[i].urlId == v.id;
        assert c1.order[i].urlId == v.id;
      }
    }
  }

  lemma PopLevels(c: Crawl, item: Item, f: Contents)
    requires Levelled(c) && Popped(c.frontier, Some(item), f)
    ensures Levelled(Crawl(f, c.given, c.order + [item]))
  {
    var order := c.order + [item];
    PopOpens(c, item, f);
    forall i | 0 <= i < |c.order| ensures order[i] == c.order[i] && order[i].depth <= item.depth {
      assert c.order[i].depth <= c.order[|c.order| - 1].depth;
    }
  }

  lemma PopSane(ways: Ways, c: Crawl, item: Item, f: Contents)
    requires Sane(ways, c, {}) && Popped(c.frontier, Some(item), f)
    ensures Sane(ways, Crawl(f, c.given, c.order + [item]), {Url(item.urlId)})
    ensures Dated(c, item)
  {
    PopBooks(c, item, f);
    PopLevels(c, item, f);
    PopOpens(c, item, f);
    assert OpenUrls(c.frontier) + {} == OpenUrls(f) + {Url(item.urlId)};
  }

  lemma LinksPushed(site: Site, ways: Ways, c: Crawl, u: Url, d: nat, c': Crawl)
    requires Fits(site, ways) && Sane(ways, c, {u}) && LinksOffered(site, c, u, d, c')
    requires u in c.given && c.given[u] == d == Level(c.order)
    ensures Sane(ways, c', {})
  {
    var links := LinksOf(site, u);
    assert ways.walk(u, d) && Extends(site, ways, u, d);
    OfferAllGives(site, c, links, Some(u), d + 1, c');
    OfferAllKeeps(site, ways, c, links, Some(u), d + 1, {u}, c');
    PageDone(ways, c', u, d);
  }

  lemma TurnKeeps(site: Site, ways: Ways, c: Crawl, item: Item, f: Contents, c': Crawl)
    requires Fits(site, ways) && Sane(ways, c, {}) && Turn(site, c, item, f, c')
    ensures Sane(ways, c', {})
  {
    PopSane(ways, c, item, f);
    LinksPushed(site, ways, Crawl(f, c.given, c.order + [item]), Url(item.urlId), item.depth, c');
  }

  lemma {:induction false} SeedsStay(site: Site, states: seq<Crawl>)
    requires Run(site, states)
    ensures forall s :: s in site.seeds ==> s in states[|states| - 1].given && states[|states| - 1].given[s] == 0
  {
    var n := |states| - 1;
    if n == 0 {
      OfferAllGives(site, Crawl(EMPTY, map[], []), site.seeds, None, 0, Start(site));
    } else {
      SeedsStay(site, states[..n]);
      assert Moves(site, states[n - 1], states[n]);
      GivenStays(site, states[n - 1], states[n]);
    }
  }

  lemma LinksKeepGiven(site: Site, c: Crawl, u: Url, d: nat, c': Crawl)
    requires LinksOffered(site, c, u, d, c')
    ensures forall v :: v in c.given ==> v in c'.given && c'.given[v] == c.given[v]
  {
    OfferAllGives(site, c, LinksOf(site, u), Some(u), d + 1, c');
  }

  lemma GivenStays(site: Site, c: Crawl, c': Crawl)
    requires Moves(site, c, c')
    ensures forall u :: u in c.given ==> u in c'.given && c'.given[u] == c.given[u]
  {
    var item, f :| Turn(site, c, item, f, c');
    LinksKeepGiven(site, Crawl(f, c.given, c.order + [item]), Url(item.urlId), item.depth, c');
  }

  lemma PageDone(ways: Ways, c: Crawl, u: Url, d: nat)
    requires Sane(ways, c, {u}) && u in c.given && c.given[u] == d == Level(c.order)
    requires forall t :: ways.link(u, t) ==> t in c.given
    ensures Sane(ways, c, {})
  {
  }

  lemma {:induction false} RunKeeps(site: Site, ways: Ways, states: seq<Crawl>)
    requires Fits(site, ways) && Run(site, states)
    ensures Sane(ways, states[|states| - 1], {})
  {
    var n := |states| - 1;
    if n == 0 {
      StartSane(site, ways);
    } else {
      RunKeeps(site, ways, states[..n]);
      assert Moves(site, states[n - 1], states[n]);
      var item, f :| Turn(site, states[n - 1], item, f, states[n]);
      TurnKeeps(site, ways, states[n - 1], item, f, states[n]);
    }
  }

  // ---------- The crawl and the recomputation agree ----------

  ghost function Crawled(c: Crawl): set<Url> {
    set item | item in c.order :: Url(item.urlId)
  }

  /** Leaving out URLs that no walk can reach does not change the walks. */
  lemma {:induction false} SameWalks(g: Graph, nodes: set<Url>, u: Url, n: nat)
    requires nodes <= g.nodes
    requires forall s :: s in g.seeds && s in g.nodes ==> s in nodes
    requires forall v, w :: v in nodes && Link(g, v, w) ==> w in nodes
    ensures Walk(g, u, n) <==> Walk(g.(nodes := nodes), u, n)
    ensures Walk(g, u, n) ==> u in nodes
    decreases n
  {
    if n > 0 {
      forall v ensures Walk(g, v, n - 1) && Link(g, v, u) <==>
                       Walk(g.(nodes := nodes), v, n - 1) && Link(g.(nodes := nodes), v, u)
      {
        SameWalks(g, nodes, v, n - 1);
      }
    }
  }

  /** In every run: pops never get shallower. Once the frontier is empty, exactly the reachable URLs
      have been crawled, each at its least number of links from a seed. */
  lemma SerialCrawlIsBreadthFirst(site: Site, states: seq<Crawl>)
    requires Closed(site) && Run(site, states)
    ensures var c := states[|states| - 1];
            && (forall i, j :: 0 <= i <= j < |c.order| ==> c.order[i].depth <= c.order[j].depth)
            && (c.frontier.items == multiset{} ==>
                  var g := LinkGraph(site, Crawled(c));
                  && (forall u :: Reachable(LinkGraph(site, site.urls), u) <==> u in Crawled(c))
                  && (forall item :: item in c.order ==> item.depth >= 0 && Distance(g, Url(item.urlId), item.depth)))
  {
    WaysFit(site);
    RunKeeps(site, WaysOf(LinkGraph(site, site.urls)), states);
    SeedsStay(site, states);
    var c := states[|states| - 1];
    if c.frontier.items == multiset{} {
      var all := LinkGraph(site, site.urls);
      CrawledIsGiven(c);
      assert OpenUrls(c.frontier) + {} == {};
      GivenIsDistance(site, c.given);
      forall item | item in c.order
        ensures item.depth >= 0 && Distance(LinkGraph(site, Crawled(c)), Url(item.urlId), item.depth)
      {
        assert Dated(c, item);
      }
      forall u ensures Reachable(all, u) <==> u in Crawled(c) {
        if u in c.given {
          assert Walk(all, u, c.given[u]);
        }
      }
    }
  }

  lemma CrawledIsGiven(c: Crawl)
    requires Booked(c) && c.frontier.items == multiset{}
    ensures Crawled(c) == c.given.Keys
  {
    forall u | u in c.given ensures u in Crawled(c) {
      assert Taken(c, u);
      var i :| 0 <= i < |c.order| && c.order[i].urlId == u.id;
      assert c.order[i] in c.order;
    }
    forall u | u in Crawled(c) ensures u in c.given {
      var item :| item in c.order && Url(item.urlId) == u;
      assert Dated(c, item);
    }
  }

  lemma GivenIsDistance(site: Site, given: map<Url, nat>)
    requires Closed(site) && Founded(WaysOf(LinkGraph(site, site.urls)), given, {})
    requires forall s :: s in site.seeds ==> s in given && given[s] == 0
    ensures forall u, n: nat :: Walk(LinkGraph(site, site.urls), u, n) ==> u in given
    ensures forall u :: u in given ==> Walk(LinkGraph(site, site.urls), u, given[u])
                                       && Distance(LinkGraph(site, given.Keys), u, given[u])
  {
    var all, g, ways := LinkGraph(site, site.urls), LinkGraph(site, given.Keys), WaysOf(LinkGraph(site, site.urls));
    forall u | u in given ensures Walk(all, u, given[u]) && u in site.urls {
      assert ways.walk(u, given[u]);
      if given[u] > 0 {
        var v :| Walk(all, v, given[u] - 1) && Link(all, v, u);
      }
    }
    forall v, w | v in given && Link(all, v, w) ensures w in given && given[w] <= given[v] + 1 {
      assert ways.link(v, w);
    }
    forall u, n: nat | Walk(all, u, n) ensures u in given && given[u] <= n {
      BoundedByWalks(all, given, {}, u, n);
    }
    forall u, n: nat ensures Walk(all, u, n) <==> Walk(g, u, n) {
      SameWalks(all, given.Keys, u, n);
    }
  }

  /** `recomputePageDepths`, run over the pages of a finished one-at-a-time crawl, leaves every depth as
      the frontier had given it. */
  method RecomputeAfterCrawl(site: Site, ghost states: seq<Crawl>, pages: map<Url, PageNode>)
      returns (updated: map<Url, PageNode>)
    requires Closed(site) && Run(site, states)
    requires states[|states| - 1].frontier.items == multiset{}
    requires pages.Keys == Crawled(states[|states| - 1])
    requires forall item :: item in states[|states| - 1].order ==> pages[Url(item.urlId)].depth == item.depth
    ensures updated == pages
  {
    ghost var c := states[|states| - 1];
    SerialCrawlIsBreadthFirst(site, states);
    var seeds := seq(|site.seeds|, i requires 0 <= i < |site.seeds| => Some(site.seeds[i]));
    updated := RecomputePageDepths(pages, site.adj, seeds);
    ghost var g := Graph(pages.Keys, site.adj, set s | s in seeds && s.Some? :: s.value);
    assert g == LinkGraph(site, Crawled(c)) by {
      forall u | u in site.seeds ensures Some(u) in seeds {
        var i :| 0 <= i < |site.seeds| && site.seeds[i] == u;
        assert seeds[i] == Some(u);
      }
    }
    forall u | u in pages ensures updated[u] == pages[u] {
      var item :| item in c.order && Url(item.urlId) == u;
      assert Distance(g, u, item.depth);
    }
  }
}
