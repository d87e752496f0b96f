/** Host onboarding: every scheme+host is onboarded once, its sitemap entries go to the frontier, and an
    entry on a new host onboards that host first. */
module Onboarding {
  import opened GoText
  import opened Frontier

  /** One sitemap entry as the engine sees it. `usable` says that its address normalizes and parses,
      `allowed` that robots.txt does not forbid it, and `urlId` is the row it is stored in, if storing works. */
  datatype Entry = Entry(usable: bool, inScope: bool, scheme: string, host: string, hostname: string, url: string,
                         allowed: bool, urlId: Option<int>)

  /** What onboarding a host yields (None: it failed), the budgets, of which one of zero or less is no limit, and
      what the n-th look at the crawl's context says: whether it is cancelled. */
  datatype World = World(site: string -> Option<seq<Entry>>, maxHosts: int, maxDiscovered: int, ctx: nat -> bool)

  function Key(scheme: string, host: string): string {
    ToLower(scheme + "://" + host)
  }

  /** Two hosts share a key exactly when scheme and host are the same up to letter case. */
  lemma SameKeyExactly(s1: string, h1: string, s2: string, h2: string)
    requires ':' !in s1 && ':' !in s2
    ensures Key(s1, h1) == Key(s2, h2) <==> EqualFold(s1, s2) && EqualFold(h1, h2)
  {
    var a, b := s1 + "://" + h1, s2 + "://" + h2;
    LowerIsFold(a, b);
    if EqualFold(a, b) {
      ColonsMeet(s1, h1, s2, h2);
      forall i | 0 <= i < |s1| ensures a[i] == s1[i] && b[i] == s2[i] {
      }
      forall i | 0 <= i < |h1| ensures a[|s1| + 3 + i] == h1[i] && b[|s1| + 3 + i] == h2[i] {
      }
    }
  }

  lemma ColonsMeet(s1: string, h1: string, s2: string, h2: string)
    requires ':' !in s1 && ':' !in s2 && EqualFold(s1 + "://" + h1, s2 + "://" + h2)
    ensures |s1| == |s2| && |h1| == |h2|
  {
    var a, b := s1 + "://" + h1, s2 + "://" + h2;
    assert a[|s1|] == ':' && b[|s2|] == ':';
    forall i | 0 <= i < |s1| ensures a[i] != ':' {
      assert a[i] == s1[i] && s1[i] in s1;
    }
    forall i | 0 <= i < |s2| ensures b[i] != ':' {
      assert b[i] == s2[i] && s2[i] in s2;
    }
  }

  /** The state of onboarding. `checks` counts the looks at the context; `onboarded` is the history of onboarding
      calls and `limited` says that a budget or a cancellation has turned something away. */
  datatype Progress = Progress(seen: set<string>, queued: int, frontier: Contents, checks: nat,
      onboarded: seq<string>, limited: bool)

  /** A budget is used up, or the crawl was found cancelled. */
  ghost predicate Full(w: World, p: Progress) {
    || (w.maxHosts > 0 && |p.seen| >= w.maxHosts)
    || (w.maxDiscovered > 0 && p.queued >= w.maxDiscovered)
    || exists n: nat :: n < p.checks && w.ctx(n)
  }

  predicate Settled(scheme: string, host: string, seen: set<string>) {
    scheme == "" || host == "" || Key(scheme, host) in seen
  }

  /** Nothing of the entry is still to be done. */
  predicate Handled(entry: Entry, p: Progress) {
    entry.usable && entry.inScope ==>
      && Settled(entry.scheme, entry.host, p.seen)
      && (entry.allowed && entry.urlId.Some? ==> entry.urlId.value in p.frontier.seen)
  }

  ghost predicate Explored(w: World, key: string, p: Progress) {
    w.site(key).Some? ==> forall entry :: entry in w.site(key).value ==> Handled(entry, p)
  }

  function ItemOf(entry: Entry, depth: int): Item
    requires entry.urlId.Some?
  {
    Item(entry.urlId.value, entry.url, entry.hostname, depth)
  }

  /** The frontier after robots.txt and the URL table have had their say on an entry. */
  function Admitted(entry: Entry, depth: int, f: Contents): Contents {
    if entry.allowed && entry.urlId.Some? then Pushed(f, ItemOf(entry, depth)) else f
  }

  predicate IsEntryItem(entry: Entry, item: Item) {
    && entry.usable && entry.inScope && entry.allowed && entry.urlId.Some?
    && item.urlId == entry.urlId.value && item.url == entry.url && item.host == entry.hostname
  }

  predicate Lists(w: World, key: string, entry: Entry) {
    w.site(key).Some? && entry in w.site(key).value
  }

  /** The item comes from a sitemap of an onboarded host, and its own host was marked before. */
  ghost predicate Justified(w: World, item: Item, seen: set<string>) {
    exists key, entry :: key in seen && Lists(w, key, entry) && IsEntryItem(entry, item)
        && Settled(entry.scheme, entry.host, seen)
  }

  ghost predicate Sound(w: World, p: Progress) {
    && (forall i: nat, j: nat :: i < j < |p.onboarded| ==> p.onboarded[i] != p.onboarded[j])
    && (forall key :: key in p.onboarded <==> key in p.seen)
    && |p.onboarded| == |p.seen|
    && (w.maxHosts > 0 ==> |p.seen| <= w.maxHosts)
    && (p.limited ==> Full(w, p))
  }

  ghost predicate ItemsAdded(w: World, a: Progress, b: Progress, depth: int) {
    && a.frontier.items <= b.frontier.items && a.frontier.seen <= b.frontier.seen
    && forall item :: item in b.frontier.items && b.frontier.items[item] > a.frontier.items[item] ==>
         item.depth == depth && Justified(w, item, b.seen)
  }

  ghost predicate BudgetKept(w: World, a: Progress, b: Progress) {
    && a.queued <= b.queued
    && (w.maxDiscovered > 0 ==>
      && b.queued <= (if a.queued > w.maxDiscovered then a.queued else w.maxDiscovered)
      && |b.frontier.items| - |a.frontier.items| <= b.queued - a.queued)
  }

  /** Everything onboarding may do between two states. Hosts in `open` are still being worked on; all
      other new hosts are fully explored unless something was turned away. */
  ghost predicate Grew(w: World, a: Progress, b: Progress, depth: int, open: set<string>) {
    && a.seen <= b.seen && a.onboarded <= b.onboarded && a.checks <= b.checks && (a.limited ==> b.limited)
    && BudgetKept(w, a, b) && ItemsAdded(w, a, b, depth)
    && (!b.limited ==> forall key :: key in b.seen && key !in a.seen && key !in open ==> Explored(w, key, b))
  }

  lemma StaysExplored(w: World, key: string, a: Progress, b: Progress)
    requires Explored(w, key, a) && a.seen <= b.seen && a.frontier.seen <= b.frontier.seen
    ensures Explored(w, key, b)
  {
    if w.site(key).Some? {
      forall entry | entry in w.site(key).value ensures Handled(entry, b) {
        assert Handled(entry, a);
      }
    }
  }

  lemma StaysJustified(w: World, item: Item, small: set<string>, large: set<string>)
    requires Justified(w, item, small) && small <= large
    ensures Justified(w, item, large)
  {
    var key, entry :| key in small && Lists(w, key, entry) && IsEntryItem(entry, item)
        && Settled(entry.scheme, entry.host, small);
    assert key in large && Lists(w, key, entry);
  }

  lemma ItemsAddedTwice(w: World, a: Progress, b: Progress, c: Progress, depth: int)
    requires ItemsAdded(w, a, b, depth) && ItemsAdded(w, b, c, depth) && b.seen <= c.seen
    ensures ItemsAdded(w, a, c, depth)
  {
    forall item | item in c.frontier.items && c.frontier.items[item] > a.frontier.items[item]
      ensures item.depth == depth && Justified(w, item, c.seen)
    {
      if c.frontier.items[item] <= b.frontier.items[item] {
        StaysJustified(w, item, b.seen, c.seen);
      }
    }
  }

  lemma GrewTwice(w: World, a: Progress, b: Progress, c: Progress, depth: int, open: set<string>)
    requires Grew(w, a, b, depth, open) && Grew(w, b, c, depth, {})
    ensures Grew(w, a, c, depth, open)
  {
    ItemsAddedTwice(w, a, b, c, depth);
    if !c.limited {
      forall key | key in c.seen && key !in a.seen && key !in open ensures Explored(w, key, c) {
        if key in b.seen {
          StaysExplored(w, key, b, c);
        }
      }
    }
  }

  ghost predicate SeedsSettled(w: World, seeds: seq<(string, string)>, n: nat, p: Progress)
    requires n <= |seeds|
  {
    w.maxHosts <= 0 || !p.limited ==> forall k: nat :: k < n ==> Settled(seeds[k].0, seeds[k].1, p.seen)
  }

  lemma OneMoreSeed(w: World, seeds: seq<(string, string)>, n: nat, a: Progress, b: Progress)
    requires n < |seeds| && SeedsSettled(w, seeds, n, a) && a.seen <= b.seen && (a.limited ==> b.limited)
    requires w.maxHosts <= 0 || !b.limited ==> Settled(seeds[n].0, seeds[n].1, b.seen)
    ensures SeedsSettled(w, seeds, n + 1, b)
  {
    if w.maxHosts <= 0 || !b.limited {
      forall k: nat | k < n ensures Settled(seeds[k].0, seeds[k].1, b.seen) {
        assert Settled(seeds[k].0, seeds[k].1, a.seen);
      }
    }
  }

  /** The first entries are handled, unless something was turned away. */
  ghost predicate Done(entries: seq<Entry>, n: nat, p: Progress)
    requires n <= |entries|
  {
    !p.limited ==> forall k: nat :: k < n ==> Handled(entries[k], p)
  }

  lemma OneMoreDone(w: World, entries: seq<Entry>, n: nat, a: Progress, b: Progress, depth: int)
    requires n < |entries| && Done(entries, n, a) && Grew(w, a, b, depth, {})
    requires !b.limited ==> Handled(entries[n], b)
    ensures Done(entries, n + 1, b)
  {
    if !b.limited {
      forall k: nat | k < n ensures Handled(entries[k], b) {
        assert Handled(entries[k], a);
      }
    }
  }

  lemma Marked(w: World, a: Progress, b: Progress, key: string, depth: int)
    requires Sound(w, a) && key !in a.seen && (w.maxHosts > 0 ==> |a.seen| < w.maxHosts)
    requires b == a.(seen := a.seen + {key}, onboarded := a.onboarded + [key])
    ensures Sound(w, b) && Grew(w, a, b, depth, {key})
  {
  }

  lemma Explores(w: World, a: Progress, b: Progress, key: string, depth: int)
    requires Grew(w, a, b, depth, {key})
    requires match w.site(key) case None => true case Some(entries) => Done(entries, |entries|, b)
    ensures Grew(w, a, b, depth, {})
  {
  }

  lemma Stopped(w: World, a: Progress, b: Progress, depth: int)
    requires b == a.(checks := b.checks, limited := b.limited) && a.checks <= b.checks && (a.limited ==> b.limited)
    ensures Grew(w, a, b, depth, {})
  {
  }

  lemma Looked(w: World, a: Progress, b: Progress)
    requires Sound(w, a) && b == a.(checks := a.checks + 1, limited := a.limited || w.ctx(a.checks))
    ensures Sound(w, b)
  {
    if w.ctx(a.checks) {
      assert a.checks < b.checks;
    }
  }

  /** A reservation was granted. */
  predicate Granted(w: World, a: Progress, b: Progress) {
    if w.maxDiscovered > 0 then a.queued < w.maxDiscovered && b == a.(queued := a.queued + 1) else b == a
  }

  /** A granted reservation, then onboarding, then at most one push. */
  lemma EntryAdmitted(w: World, a: Progress, granted: Progress, b: Progress, c: Progress, from: string, entry: Entry,
      depth: int)
    requires Granted(w, a, granted)
    requires Grew(w, granted, b, depth, {})
    requires from in b.seen && Lists(w, from, entry) && entry.usable && entry.inScope
        && Settled(entry.scheme, entry.host, b.seen)
    requires c == b.(frontier := Admitted(entry, depth, b.frontier))
    ensures Grew(w, a, c, depth, {}) && Handled(entry, c)
  {
    if c != b {
      assert IsEntryItem(entry, ItemOf(entry, depth)) && Justified(w, ItemOf(entry, depth), b.seen);
    }
    assert ItemsAdded(w, b, c, depth);
    ItemsAddedTwice(w, granted, b, c, depth);
    if !c.limited {
      forall key | key in c.seen && key !in a.seen ensures Explored(w, key, c) {
        StaysExplored(w, key, b, c);
      }
    }
  }

  /** Hosts whose sitemaps name no host outside them: the finite world a crawl without a host limit needs. */
  ghost predicate Closed(w: World, universe: set<string>) {
    forall key, entry :: key in universe && Lists(w, key, entry) && entry.scheme != "" && entry.host != "" ==>
      Key(entry.scheme, entry.host) in universe
  }

  class HostOnboarding {
    const w: World
    const q: Queue
    var seen: set<string>
    var queuedDiscovered: int
    var checks: nat
    ghost var onboarded: seq<string>
    ghost var limited: bool
    ghost const universe: set<string>

    ghost function Value(): Progress
      reads this, q
    {
      Progress(seen, queuedDiscovered, q.Value(), checks, onboarded, limited)
    }

    ghost predicate Valid()
      reads this, q
    {
      && q.Valid() && Sound(w, Value())
      && (w.maxHosts <= 0 ==> Closed(w, universe) && seen <= universe)
    }

    /** How many hosts may still be onboarded. */
    ghost function Left(): int
      reads this
    {
      (if w.maxHosts > 0 then w.maxHosts else |universe|) - |seen|
    }

    ghost predicate Known(scheme: string, host: string)
    {
      w.maxHosts <= 0 && scheme != "" && host != "" ==> Key(scheme, host) in universe
    }

    constructor (w: World, q: Queue, ghost universe: set<string>)
      requires q.Valid() && (w.maxHosts <= 0 ==> Closed(w, universe))
      ensures Valid() && this.w == w && this.q == q && this.universe == universe
      ensures Value() == Progress({}, |q.Value().items|, q.Value(), 0, [], false)
    {
      this.w, this.q, this.universe := w, q, universe;
      seen, checks, onboarded, limited := {}, 0, [], false;
      new;
      queuedDiscovered := q.Len();
    }

    method ReserveDiscoveredURL() returns (granted: bool)
      modifies this
      ensures granted == !(w.maxDiscovered > 0 && old(queuedDiscovered) >= w.maxDiscovered)
      ensures Value() == old(Value()).(
        queued := old(queuedDiscovered) + (if granted && w.maxDiscovered > 0 then 1 else 0),
        limited := old(limited) || !granted)
    {
      if w.maxDiscovered <= 0 {
        return true;
      }
      if queuedDiscovered >= w.maxDiscovered {
        limited := true;
        return false;
      }
      queuedDiscovered := queuedDiscovered + 1;
      return true;
    }

    /** Marks a host, onboards it and enqueues its sitemap entries. Answers false, and changes nothing,
        exactly when the host is new and the host limit is reached. */
    method EnsureHostOnboarded(host: string, scheme: string, depth: int) returns (ok: bool)
      requires Valid() && Known(scheme, host)
      modifies this, q
      ensures Valid() && Grew(w, old(Value()), Value(), depth, {})
      ensures ok == (Settled(scheme, host, old(seen)) || w.maxHosts <= 0 || old(|seen|) < w.maxHosts)
      ensures ok ==> Settled(scheme, host, seen)
      ensures !ok || Settled(scheme, host, old(seen)) ==> Value() == old(Value()).(limited := old(limited) || !ok)
      decreases Left(), 0
    {
      if host == "" || scheme == "" {
        return true;
      }
      var key := Key(scheme, host);
      if key in seen {
        return true;
      }
      if w.maxHosts > 0 && |seen| >= w.maxHosts {
        limited := true;
        return false;
      }
      seen, onboarded := seen + {key}, onboarded + [key];
      RoomInUniverse(seen, universe, w.maxHosts);
      Marked(w, old(Value()), Value(), key, depth);

      var info := w.site(key);
      if info.None? {
        Explores(w, old(Value()), Value(), key, depth);
        return true;
      }
      var entries := info.value;
      for i := 0 to |entries|
        invariant Valid() && Grew(w, old(Value()), Value(), depth, {key}) && key in seen
        invariant Done(entries, i, Value())
        invariant Left() < old(Left())
      {
        ghost var before := Value();
        assert Lists(w, key, entries[i]);
        EnqueueSitemapEntry(entries[i], depth, key);
        GrewTwice(w, old(Value()), before, Value(), depth, {key});
        OneMoreDone(w, entries, i, before, Value(), depth);
      }
      Explores(w, old(Value()), Value(), key, depth);
      return true;
    }

    /** Puts one sitemap entry of the host `from` on the frontier, onboarding its host first. */
    method EnqueueSitemapEntry(entry: Entry, depth: int, ghost from: string)
      requires Valid() && from in seen && Lists(w, from, entry)
      modifies this, q
      ensures Valid() && Grew(w, old(Value()), Value(), depth, {})
      ensures !limited ==> Handled(entry, Value())
      decreases Left(), 2
    {
      var cancelled := w.ctx(checks);
      checks := checks + 1;
      limited := limited || cancelled;
      Looked(w, old(Value()), Value());
      ghost var checked := Value();
      Stopped(w, old(Value()), checked, depth);
      if cancelled || !entry.usable || !entry.inScope {
        return;
      }
      var reserved := ReserveDiscoveredURL();
      if !reserved {
        Stopped(w, old(Value()), Value(), depth);
        return;
      }
      EnqueueReserved(entry, depth, from, checked);
      GrewTwice(w, old(Value()), checked, Value(), depth, {});
    }

    /** The rest of it, once the entry's reservation has been granted in the state `before`. */
    method EnqueueReserved(entry: Entry, depth: int, ghost from: string, ghost before: Progress)
      requires Valid() && from in seen && Lists(w, from, entry) && entry.usable && entry.inScope
      requires Granted(w, before, Value())
      modifies this, q
      ensures Valid() && Grew(w, before, Value(), depth, {})
      ensures !limited ==> Handled(entry, Value())
      decreases Left(), 1
    {
      ghost var granted := Value();
      if entry.host != "" {
        var ok := EnsureHostOnboarded(entry.host, entry.scheme, depth);
        if !ok {
          EntryGrew(w, before, granted, Value(), depth);
          return;
        }
      }
      Stopped(w, granted, granted, depth);
      ghost var settled := Value();
      assert Grew(w, granted, settled, depth, {}) && Settled(entry.scheme, entry.host, seen);
      Admit(entry, depth);
      EntryAdmitted(w, before, granted, settled, Value(), from, entry, depth);
    }

    /** Checks robots.txt, stores the URL and pushes it unless it is known. */
    method Admit(entry: Entry, depth: int)
      requires Valid()
      modifies q
      ensures Valid() && Value() == old(Value()).(frontier := Admitted(entry, depth, old(q.Value())))
    {
      if !entry.allowed || entry.urlId.None? {
        return;
      }
      var known := q.Contains(entry.urlId.value);
      if !known {
        q.Push(ItemOf(entry, depth));
      }
    }

    /** The engine's start: onboards the host of every seed, whose sitemap entries get depth 1. Only a host limit
        can leave a seed host out. */
    method OnboardSeedHosts(seeds: seq<(string, string)>)
      requires Valid() && forall seed :: seed in seeds ==> Known(seed.0, seed.1)
      modifies this, q
      ensures Valid() && Grew(w, old(Value()), Value(), 1, {})
      ensures w.maxHosts <= 0 || !limited ==> forall seed :: seed in seeds ==> Settled(seed.0, seed.1, seen)
    {
      for i := 0 to |seeds|
        invariant Valid() && Grew(w, old(Value()), Value(), 1, {}) && SeedsSettled(w, seeds, i, Value())
      {
        ghost var before := Value();
        assert seeds[i] in seeds;
        var _ := EnsureHostOnboarded(seeds[i].1, seeds[i].0, 1);
        GrewTwice(w, old(Value()), before, Value(), 1, {});
        OneMoreSeed(w, seeds, i, before, Value());
      }
    }
  }

  lemma EntryGrew(w: World, a: Progress, granted: Progress, b: Progress, depth: int)
    requires Granted(w, a, granted)
    requires Grew(w, granted, b, depth, {})
    ensures Grew(w, a, b, depth, {})
  {
  }

  lemma RoomInUniverse(seen: set<string>, universe: set<string>, maxHosts: int)
    ensures maxHosts <= 0 && seen <= universe ==> |seen| <= |universe|
  {
    if seen <= universe {
      assert universe == seen + (universe - seen);
    }
  }

  /** Without a host limit two seed hosts that differ not only in letter case are both onboarded, each once. */
  lemma SeedHostsApart(w: World, p: Progress, seeds: seq<(string, string)>, i: nat, j: nat)
    requires w.maxHosts <= 0 && Sound(w, p) && i < |seeds| && j < |seeds|
    requires forall seed :: seed in seeds ==> Settled(seed.0, seed.1, p.seen)
    requires forall seed :: seed in seeds ==> seed.0 != "" && seed.1 != "" && ':' !in seed.0
    requires !(EqualFold(seeds[i].0, seeds[j].0) && EqualFold(seeds[i].1, seeds[j].1))
    ensures exists m, n :: 0 <= m < |p.onboarded| && 0 <= n < |p.onboarded| && m != n
              && p.onboarded[m] == Key(seeds[i].0, seeds[i].1) && p.onboarded[n] == Key(seeds[j].0, seeds[j].1)
  {
    SameKeyExactly(seeds[i].0, seeds[i].1, seeds[j].0, seeds[j].1);
    var k1, k2 := Key(seeds[i].0, seeds[i].1), Key(seeds[j].0, seeds[j].1);
    assert seeds[i] in seeds && seeds[j] in seeds;
    assert k1 in p.onboarded && k2 in p.onboarded;
    var m :| 0 <= m < |p.onboarded| && p.onboarded[m] == k1;
    var n :| 0 <= n < |p.onboarded| && p.onboarded[n] == k2;
  }

  /** Nothing is turned away while no budget is used up and the crawl is not cancelled. */
  lemma NothingTurnedAway(w: World, p: Progress)
    requires Sound(w, p) && w.maxHosts <= 0 && w.maxDiscovered <= 0 && forall n: nat :: !w.ctx(n)
    ensures !p.limited
  {
  }

  ghost predicate Names(w: World, from: string, to: string) {
    exists entry :: Lists(w, from, entry) && entry.usable && entry.inScope && entry.scheme != "" && entry.host != ""
                 && Key(entry.scheme, entry.host) == to
  }

  /** When a start from nothing turned nothing away, every host that a chain of sitemaps reaches from an
      onboarded host is onboarded, and so is everything those sitemaps list on the frontier. */
  lemma {:induction false} ReachableHostsOnboarded(w: World, a: Progress, p: Progress, depth: int, hosts: seq<string>)
    requires Grew(w, a, p, depth, {}) && a.seen == {} && !p.limited
    requires hosts != [] && hosts[0] in p.seen
    requires forall i :: 0 < i < |hosts| ==> Names(w, hosts[i - 1], hosts[i])
    ensures hosts[|hosts| - 1] in p.seen && Explored(w, hosts[|hosts| - 1], p)
  {
    var n := |hosts| - 1;
    if n > 0 {
      ReachableHostsOnboarded(w, a, p, depth, hosts[..n]);
      assert Names(w, hosts[n - 1], hosts[n]);
      var entry :| Lists(w, hosts[n - 1], entry) && entry.usable && entry.inScope && entry.scheme != ""
          && entry.host != ""
                   && Key(entry.scheme, entry.host) == hosts[n];
      assert Handled(entry, p);
    }
  }
}
