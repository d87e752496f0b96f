/** The per-client fixed-window request limiter and its garbage collector. */
module WindowLimiter {

  type Key = string

  datatype Window = Window(count: int, start: int)

  // ---------- The limiter as a value ----------

  /** Whether the window of `key` has run out at `now`, or was never opened. */
  predicate Expired(hits: map<Key, Window>, key: Key, now: int, window: int) {
    key !in hits || now - hits[key].start >= window
  }

  predicate Allows(hits: map<Key, Window>, key: Key, now: int, limit: int, window: int) {
    Expired(hits, key, now, window) || hits[key].count < limit
  }

  function After(hits: map<Key, Window>, key: Key, now: int, limit: int, window: int): map<Key, Window> {
    if Expired(hits, key, now, window) then hits[key := Window(1, now)]
    else if hits[key].count >= limit then hits
    else hits[key := hits[key].(count := hits[key].count + 1)]
  }

  function Collected(hits: map<Key, Window>, now: int, window: int): map<Key, Window> {
    map k | k in hits && now - hits[k].start < window * 2 :: hits[k]
  }

  class RateLimiter {
    const limit: int
    const window: int
    var hits: map<Key, Window>

    constructor (limit: int, window: int)
      ensures this.limit == limit && this.window == window && hits == map[]
    {
      this.limit, this.window, hits := limit, window, map[];
    }

    method Allow(key: Key, now: int) returns (allowed: bool)
      modifies this
      ensures allowed <==> Allows(old(hits), key, now, limit, window)
      ensures hits == After(old(hits), key, now, limit, window)
    {
      if key !in hits || now - hits[key].start >= window {
        hits := hits[key := Window(1, now)];
        return true;
      }
      var st := hits[key];
      if st.count >= limit {
        return false;
      }
      hits := hits[key := st.(count := st.count + 1)];
      return true;
    }

    /** One tick of the collector. */
    method Gc(now: int)
      modifies this
      ensures hits == Collected(old(hits), now, window)
    {
      var todo := hits.Keys;
      ghost var before := hits;
      while todo != {}
        invariant todo <= before.Keys
        invariant forall k :: k in hits <==> k in before && (k in todo || now - before[k].start < window * 2)
        invariant forall k :: k in hits ==> hits[k] == before[k]
      {
        var k :| k in todo;
        todo := todo - {k};
        if now - hits[k].start >= window * 2 {
          hits := hits - {k};
        }
      }
    }
  }

  // ---------- Collection is invisible ----------

  datatype Event = Request(key: Key, at: int) | Tick(at: int)

  function Run(events: seq<Event>, limit: int, window: int): map<Key, Window> {
    if events == [] then map[]
    else
      var hits := Run(events[..|events| - 1], limit, window);
      match events[|events| - 1]
      case Request(key, at) => After(hits, key, at, limit, window)
      case Tick(at) => Collected(hits, at, window)
  }

  function WithoutTicks(events: seq<Event>): seq<Event> {
    if events == [] then []
    else
      var init, last := WithoutTicks(events[..|events| - 1]), events[|events| - 1];
      if last.Tick? then init else init + [last]
  }

  /** The clock never runs backwards. */
  predicate Monotone(events: seq<Event>) {
    forall i, j :: 0 <= i <= j < |events| ==> events[i].at <= events[j].at
  }

  /** Up to windows that nobody can be inside any more, the two tables agree. */
  ghost predicate SameLive(a: map<Key, Window>, b: map<Key, Window>, now: int, window: int) {
    forall k :: (k in a && k in b && a[k] == b[k]) || (Expired(a, k, now, window) && Expired(b, k, now, window))
  }

  lemma {:induction false} TablesAgree(events: seq<Event>, limit: int, window: int, now: int)
    requires Monotone(events) && forall i :: 0 <= i < |events| ==> events[i].at <= now
    ensures SameLive(Run(events, limit, window), Run(WithoutTicks(events), limit, window), now, window)
    ensures OpenedBy(Run(events, limit, window), now) && OpenedBy(Run(WithoutTicks(events), limit, window), now)
  {
    if events != [] {
      var n := |events| - 1;
      var init, last := events[..n], events[n];
      TablesAgree(init, limit, window, last.at);
      var a, b := Run(init, limit, window), Run(WithoutTicks(init), limit, window);
      match last
      case Request(key, at) =>
        var all := WithoutTicks(init) + [last];
        assert all[..|all| - 1] == WithoutTicks(init);
        RequestKeepsAgreement(a, b, key, at, limit, window, now);
      case Tick(at) => TickKeepsAgreement(a, b, at, window, now);
    }
  }

  ghost predicate OpenedBy(hits: map<Key, Window>, now: int) {
    forall k :: k in hits ==> hits[k].start <= now
  }

  lemma RequestKeepsAgreement(a: map<Key, Window>, b: map<Key, Window>, key: Key, at: int, limit: int, window: int,
      now: int)
    requires SameLive(a, b, at, window) && OpenedBy(a, at) && OpenedBy(b, at) && at <= now
    ensures SameLive(After(a, key, at, limit, window), After(b, key, at, limit, window), now, window)
    ensures OpenedBy(After(a, key, at, limit, window), now) && OpenedBy(After(b, key, at, limit, window), now)
  {
  }

  lemma TickKeepsAgreement(a: map<Key, Window>, b: map<Key, Window>, at: int, window: int, now: int)
    requires SameLive(a, b, at, window) && OpenedBy(a, at) && OpenedBy(b, at) && at <= now
    ensures SameLive(Collected(a, at, window), b, now, window)
    ensures OpenedBy(Collected(a, at, window), now) && OpenedBy(b, now)
  {
  }

  /** Whenever the collector runs, no answer changes: every request gets the answer it would have
      got had the collector never run. */
  lemma CollectionIsInvisible(events: seq<Event>, limit: int, window: int, key: Key, at: int)
    requires Monotone(events + [Request(key, at)])
    ensures Allows(Run(events, limit, window), key, at, limit, window)
       <==> Allows(Run(WithoutTicks(events), limit, window), key, at, limit, window)
  {
    var all := events + [Request(key, at)];
    forall i | 0 <= i < |events| ensures events[i].at <= at {
      assert all[i] == events[i] && all[|events|] == Request(key, at);
    }
    forall i, j | 0 <= i <= j < |events| ensures events[i].at <= events[j].at {
      assert all[i] == events[i] && all[j] == events[j];
    }
    TablesAgree(events, limit, window, at);
  }

  // ---------- How many requests get through ----------

  /** The times of the granted requests for one key. */
  function Grants(events: seq<Event>, key: Key, limit: int, window: int): seq<int> {
    if events == [] then []
    else
      var init, last := events[..|events| - 1], events[|events| - 1];
      var before := Grants(init, key, limit, window);
      if last.Request? && last.key == key && Allows(Run(init, limit, window), key, last.at, limit, window)
      then before + [last.at] else before
  }

  /** How many of the times lie in the half-open interval from `lo` to `hi`. */
  function CountIn(times: seq<int>, lo: int, hi: int): nat {
    if times == [] then 0
    else CountIn(times[..|times| - 1], lo, hi) + if lo <= times[|times| - 1] < hi then 1 else 0
  }

  /** How many of the times lie in the half-open interval of the given length from `lo` on. */
  function InSpan(times: seq<int>, lo: int, length: int): nat {
    CountIn(times, lo, lo + length)
  }

  function CountFrom(times: seq<int>, lo: int): nat {
    if times == [] then 0
    else CountFrom(times[..|times| - 1], lo) + if lo <= times[|times| - 1] then 1 else 0
  }

  lemma {:induction false} CountSplits(times: seq<int>, lo: int, mid: int, hi: int)
    requires lo <= mid
    ensures CountIn(times, lo, hi) <= CountIn(times, lo, mid) + CountFrom(times, mid)
    ensures CountFrom(times, mid) <= CountFrom(times, lo)
    ensures CountIn(times, lo, hi) <= CountFrom(times, lo)
  {
    if times != [] {
      CountSplits(times[..|times| - 1], lo, mid, hi);
    }
  }

  lemma {:induction false} NoneFrom(times: seq<int>, lo: int)
    requires forall i :: 0 <= i < |times| ==> times[i] < lo
    ensures CountFrom(times, lo) == 0
  {
    if times != [] {
      NoneFrom(times[..|times| - 1], lo);
    }
  }

  lemma CountSnoc(times: seq<int>, t: int, lo: int, hi: int)
    ensures CountIn(times + [t], lo, hi) == CountIn(times, lo, hi) + if lo <= t < hi then 1 else 0
    ensures CountFrom(times + [t], lo) == CountFrom(times, lo) + if lo <= t then 1 else 0
  {
    assert (times + [t])[..|times|] == times;
  }

  /** The open window holds `count` grants, its opener at `start`; the window's length before it saw
      fewer than `limit` of them. */
  ghost predicate Paced(times: seq<int>, w: Window, limit: int, window: int) {
    && 1 <= w.count <= limit
    && (forall i :: 0 <= i < |times| ==> times[i] < w.start + window)
    && CountFrom(times, w.start) == w.count
    && CountFrom(times, w.start + 1) <= w.count - 1
    && FewBefore(times, w.start, limit, window)
    && SpansFit(times, limit, window)
  }

  /** The window's length before `t` saw fewer than `limit` of the times. */
  ghost predicate FewBefore(times: seq<int>, t: int, limit: int, window: int) {
    forall lo :: lo > t - window ==> CountIn(times, lo, t) <= limit - 1
  }

  ghost predicate FewFrom(times: seq<int>, t: int, limit: int, window: int) {
    forall lo :: lo > t - window ==> CountFrom(times, lo) <= limit - 1
  }

  ghost predicate SpansFit(times: seq<int>, limit: int, window: int) {
    forall lo :: InSpan(times, lo, window) <= 2 * limit - 1
  }

  lemma GrantInWindow(times: seq<int>, w: Window, t: int, limit: int, window: int)
    requires Paced(times, w, limit, window) && w.start <= t < w.start + window && w.count < limit
    ensures Paced(times + [t], w.(count := w.count + 1), limit, window)
  {
    CountSnoc(times, t, w.start, 0);
    CountSnoc(times, t, w.start + 1, 0);
    forall lo | lo > w.start - window ensures CountIn(times + [t], lo, w.start) <= limit - 1 {
      CountSnoc(times, t, lo, w.start);
    }
    forall lo ensures InSpan(times + [t], lo, window) <= 2 * limit - 1 {
      assert InSpan(times, lo, window) <= 2 * limit - 1;
      CountSnoc(times, t, lo, lo + window);
      if lo <= w.start {
        CountSplits(times, lo, w.start, lo + window);
      } else {
        CountSplits(times, w.start + 1, lo, lo + window);
        CountSplits(times, lo, lo, lo + window);
      }
    }
  }

  lemma OpenerTail(times: seq<int>, t: int, limit: int, window: int)
    requires FewFrom(times, t, limit, window)
    ensures FewBefore(times + [t], t, limit, window)
  {
    forall lo | lo > t - window ensures CountIn(times + [t], lo, t) <= limit - 1 {
      OpenerIsOutside(times, t, lo);
    }
  }

  lemma OpenerSpans(times: seq<int>, t: int, limit: int, window: int)
    requires limit >= 1 && FewFrom(times, t, limit, window) && SpansFit(times, limit, window)
    ensures SpansFit(times + [t], limit, window)
  {
    forall lo ensures InSpan(times + [t], lo, window) <= 2 * limit - 1 {
      OpenerFitsSpan(times, t, lo, limit, window);
    }
  }

  lemma GrantOpensWindow(times: seq<int>, t: int, limit: int, window: int)
    requires limit >= 1 && window > 0
    requires forall i :: 0 <= i < |times| ==> times[i] < t
    requires FewFrom(times, t, limit, window) && SpansFit(times, limit, window)
    ensures Paced(times + [t], Window(1, t), limit, window)
  {
    OpenerCounts(times, t);
    OpenerTail(times, t, limit, window);
    OpenerSpans(times, t, limit, window);
  }

  lemma OpenerCounts(times: seq<int>, t: int)
    requires forall i :: 0 <= i < |times| ==> times[i] < t
    ensures CountFrom(times + [t], t) == 1 && CountFrom(times + [t], t + 1) == 0
  {
    NoneFrom(times, t);
    NoneFrom(times, t + 1);
    CountSnoc(times, t, t, 0);
    CountSnoc(times, t, t + 1, 0);
  }

  lemma OpenerIsOutside(times: seq<int>, t: int, lo: int)
    ensures CountIn(times + [t], lo, t) <= CountFrom(times, lo)
  {
    CountSnoc(times, t, lo, t);
    CountSplits(times, lo, lo, t);
  }

  lemma OpenerFitsSpan(times: seq<int>, t: int, lo: int, limit: int, window: int)
    requires limit >= 1 && InSpan(times, lo, window) <= 2 * limit - 1
    requires lo > t - window ==> CountFrom(times, lo) <= limit - 1
    ensures InSpan(times + [t], lo, window) <= 2 * limit - 1
  {
    CountSnoc(times, t, lo, lo + window);
    CountSplits(times, lo, lo, lo + window);
  }

  lemma ClosedWindow(times: seq<int>, w: Window, t: int, limit: int, window: int)
    requires Paced(times, w, limit, window) && t >= w.start + window
    ensures FewFrom(times, t, limit, window)
  {
    forall lo | lo > t - window ensures CountFrom(times, lo) <= limit - 1 {
      CountSplits(times, w.start + 1, lo, lo);
    }
  }

  /** In a run without the collector, the table entry of `key` describes its grants. */
  lemma {:induction false} GrantsPaced(events: seq<Event>, key: Key, limit: int, window: int, now: int)
    requires limit >= 1 && window > 0 && Monotone(events)
    requires forall i :: 0 <= i < |events| ==> events[i].Request? && events[i].at <= now
    ensures var hits, times := Run(events, limit, window), Grants(events, key, limit, window);
            && (key !in hits ==> times == [])
            && (key in hits ==> Paced(times, hits[key], limit, window) && hits[key].start <= now)
  {
    if events != [] {
      var n := |events| - 1;
      var init, last := events[..n], events[n];
      GrantsPaced(init, key, limit, window, last.at);
      var hits, times := Run(init, limit, window), Grants(init, key, limit, window);
      if last.key == key && Allows(hits, key, last.at, limit, window) {
        if !Expired(hits, key, last.at, window) {
          GrantInWindow(times, hits[key], last.at, limit, window);
        } else {
          if key in hits {
            ClosedWindow(times, hits[key], last.at, limit, window);
          }
          GrantOpensWindow(times, last.at, limit, window);
        }
      }
    }
  }

  lemma {:induction false} TicklessMembers(events: seq<Event>)
    ensures forall e :: e in WithoutTicks(events) ==> e.Request? && e in events
  {
    if events != [] {
      TicklessMembers(events[..|events| - 1]);
      assert events == events[..|events| - 1] + [events[|events| - 1]];
    }
  }

  lemma {:induction false} TicklessMonotone(events: seq<Event>)
    requires Monotone(events)
    ensures Monotone(WithoutTicks(events))
  {
    if events != [] {
      var n := |events| - 1;
      var kept := WithoutTicks(events[..n]);
      TicklessMonotone(events[..n]);
      TicklessMembers(events[..n]);
      forall i | 0 <= i < |kept| ensures kept[i].at <= events[n].at {
        assert kept[i] in events[..n];
        EarlierThanLast(events, kept[i]);
      }
    }
  }

  lemma EarlierThanLast(events: seq<Event>, e: Event)
    requires Monotone(events) && e in events
    ensures e.at <= events[|events| - 1].at
  {
  }

  lemma {:induction false} TicklessGrants(events: seq<Event>, key: Key, limit: int, window: int)
    requires Monotone(events)
    ensures Grants(WithoutTicks(events), key, limit, window) == Grants(events, key, limit, window)
  {
    if events != [] {
      var n := |events| - 1;
      var init, last := events[..n], events[n];
      TicklessGrants(init, key, limit, window);
      if last.Request? {
        var kept := WithoutTicks(init);
        assert (kept + [last])[..|kept|] == kept;
        assert events == init + [last];
        if last.key == key {
          CollectionIsInvisible(init, limit, window, key, last.at);
        }
      }
    }
  }

  lemma {:induction false} EmptyInterval(times: seq<int>, lo: int, hi: int)
    requires hi <= lo
    ensures CountIn(times, lo, hi) == 0
  {
    if times != [] {
      EmptyInterval(times[..|times| - 1], lo, hi);
    }
  }

  /** Any half-open interval as long as a window admits fewer than twice `limit` requests per key,
      wherever it lies and whenever the collector runs. */
  lemma FewerThanTwiceTheLimit(events: seq<Event>, key: Key, limit: int, window: int, lo: int)
    requires limit >= 1 && Monotone(events)
    ensures InSpan(Grants(events, key, limit, window), lo, window) <= 2 * limit - 1
  {
    var times := Grants(events, key, limit, window);
    if window <= 0 {
      EmptyInterval(times, lo, lo + window);
    } else if events != [] {
      TicklessGrants(events, key, limit, window);
      TicklessMonotone(events);
      TicklessMembers(events);
      var requests := WithoutTicks(events);
      forall i | 0 <= i < |requests| ensures requests[i].at <= events[|events| - 1].at {
        EarlierThanLast(events, requests[i]);
      }
      GrantsPaced(requests, key, limit, window, events[|events| - 1].at);
    }
  }

  lemma {:induction false} CountUpTo(times: seq<int>, lo: int, hi: int)
    requires forall i :: 0 <= i < |times| ==> times[i] < hi
    ensures CountIn(times, lo, hi) == CountFrom(times, lo)
  {
    if times != [] {
      CountUpTo(times[..|times| - 1], lo, hi);
    }
  }

  lemma {:induction false} GrantsBefore(events: seq<Event>, key: Key, limit: int, window: int, now: int)
    requires forall i :: 0 <= i < |events| ==> events[i].at <= now
    ensures forall i :: 0 <= i < |Grants(events, key, limit, window)| ==> Grants(events, key, limit, window)[i] <= now
  {
    if events != [] {
      GrantsBefore(events[..|events| - 1], key, limit, window, now);
    }
  }

  lemma RefusedWithoutTicks(requests: seq<Event>, key: Key, at: int, limit: int, window: int)
    requires limit >= 1 && Monotone(requests)
    requires forall i :: 0 <= i < |requests| ==> requests[i].Request? && requests[i].at <= at
    requires !Allows(Run(requests, limit, window), key, at, limit, window)
    ensures InSpan(Grants(requests, key, limit, window), at - window + 1, window) >= limit
  {
    var w, times := Run(requests, limit, window)[key], Grants(requests, key, limit, window);
    if window > 0 {
      GrantsPaced(requests, key, limit, window, at);
      GrantsBefore(requests, key, limit, window, at);
      CountUpTo(times, at - window + 1, at + 1);
      CountSplits(times, at - window + 1, w.start, at + 1);
    } else {
      NeverExpiredLate(requests, key, at, limit, window);
    }
  }

  /** Windows of no length never refuse anything. */
  lemma {:induction false} NeverExpiredLate(events: seq<Event>, key: Key, now: int, limit: int, window: int)
    requires window <= 0 && forall i :: 0 <= i < |events| ==> events[i].at <= now
    ensures Expired(Run(events, limit, window), key, now, window)
  {
    if events != [] {
      NeverExpiredLate(events[..|events| - 1], key, now, limit, window);
    }
  }

  /** A request is refused only when the limit of its key's requests has been let through within the last
      window's length, wherever the collector runs. */
  lemma RefusedOnlyWhenFull(events: seq<Event>, key: Key, at: int, limit: int, window: int)
    requires limit >= 1 && Monotone(events + [Request(key, at)])
    requires !Allows(Run(events, limit, window), key, at, limit, window)
    ensures InSpan(Grants(events, key, limit, window), at - window + 1, window) >= limit
  {
    var all := events + [Request(key, at)];
    CollectionIsInvisible(events, limit, window, key, at);
    forall i, j | 0 <= i <= j < |events| ensures events[i].at <= events[j].at {
      assert all[i] == events[i] && all[j] == events[j];
    }
    TicklessGrants(events, key, limit, window);
    TicklessMonotone(events);
    TicklessMembers(events);
    forall e | e in events ensures e.at <= at {
      EarlierThanLast(all, e);
    }
    RefusedWithoutTicks(WithoutTicks(events), key, at, limit, window);
  }

  // ---------- Clients do not disturb each other ----------

  /** The requests of one key, and all runs of the collector. */
  function Alone(events: seq<Event>, key: Key): seq<Event> {
    if events == [] then []
    else
      var init, last := Alone(events[..|events| - 1], key), events[|events| - 1];
      if last.Request? && last.key != key then init else init + [last]
  }

  predicate SameAt(a: map<Key, Window>, b: map<Key, Window>, key: Key) {
    (key in a <==> key in b) && (key in a ==> a[key] == b[key])
  }

  lemma {:induction false} OthersLeaveEntry(events: seq<Event>, key: Key, limit: int, window: int)
    ensures SameAt(Run(events, limit, window), Run(Alone(events, key), limit, window), key)
  {
    if events != [] {
      var init, last := events[..|events| - 1], events[|events| - 1];
      OthersLeaveEntry(init, key, limit, window);
      var kept := Alone(init, key);
      assert (kept + [last])[..|kept|] == kept;
    }
  }

  /** Whatever other clients do, every request of a client gets the answer it would get without them. */
  lemma OthersNeverCount(events: seq<Event>, key: Key, at: int, limit: int, window: int)
    ensures Allows(Run(events, limit, window), key, at, limit, window)
       <==> Allows(Run(Alone(events, key), limit, window), key, at, limit, window)
  {
    OthersLeaveEntry(events, key, limit, window);
  }

  // ---------- The bound is met ----------

  lemma OneMore(events: seq<Event>, key: Key, at: int, limit: int, window: int)
    ensures var more := events + [Request(key, at)];
            && Run(more, limit, window) == After(Run(events, limit, window), key, at, limit, window)
            && Grants(more, key, limit, window) == Grants(events, key, limit, window)
                 + if Allows(Run(events, limit, window), key, at, limit, window) then [at] else []
  {
    assert (events + [Request(key, at)])[..|events|] == events;
  }

  function Copies<T>(x: T, n: nat): (s: seq<T>)
    ensures |s| == n && forall i :: 0 <= i < n ==> s[i] == x
  {
    seq(n, _ => x)
  }

  lemma MoreCopies<T>(s: seq<T>, x: T, n: nat)
    requires n > 0
    ensures s + Copies(x, n) == s + Copies(x, n - 1) + [x]
  {
  }

  predicate IsOpen(hits: map<Key, Window>, key: Key, w: Window) {
    key in hits && hits[key] == w
  }

  lemma GrantedInside(events: seq<Event>, key: Key, w: Window, t: int, limit: int, window: int)
    requires IsOpen(Run(events, limit, window), key, w) && w.start <= t < w.start + window && w.count < limit
    ensures var more := events + [Request(key, t)];
            && IsOpen(Run(more, limit, window), key, w.(count := w.count + 1))
            && Grants(more, key, limit, window) == Grants(events, key, limit, window) + [t]
  {
    OneMore(events, key, t, limit, window);
  }

  /** Requests inside an open window that still has room are all granted. */
  lemma {:induction false} Burst(events: seq<Event>, key: Key, w: Window, t: int, n: nat, limit: int, window: int)
    requires IsOpen(Run(events, limit, window), key, w) && w.start <= t < w.start + window && w.count + n <= limit
    ensures var more := events + Copies(Request(key, t), n);
            && IsOpen(Run(more, limit, window), key, w.(count := w.count + n))
            && Grants(more, key, limit, window) == Grants(events, key, limit, window) + Copies(t, n)
  {
    if n == 0 {
      assert events + Copies(Request(key, t), 0) == events;
      assert Grants(events, key, limit, window) + Copies(t, 0) == Grants(events, key, limit, window);
    } else {
      var before := events + Copies(Request(key, t), n - 1);
      Burst(events, key, w, t, n - 1, limit, window);
      GrantedInside(before, key, w.(count := w.count + (n - 1)), t, limit, window);
      MoreCopies(events, Request(key, t), n);
      MoreCopies(Grants(events, key, limit, window), t, n);
    }
  }

  lemma {:induction false} CountCopies(times: seq<int>, t: int, n: nat, lo: int, hi: int)
    requires lo <= t < hi
    ensures CountIn(times + Copies(t, n), lo, hi) == CountIn(times, lo, hi) + n
  {
    if n == 0 {
      assert times + Copies(t, 0) == times;
    } else {
      CountCopies(times, t, n - 1, lo, hi);
      CountSnoc(times + Copies(t, n - 1), t, lo, hi);
      assert times + Copies(t, n) == times + Copies(t, n - 1) + [t];
    }
  }

  /** One request at the start of a window, then as many as it holds at its end. */
  lemma FillLate(key: Key, limit: int, window: int) returns (events: seq<Event>)
    requires limit >= 1 && window >= 2
    ensures |events| == limit && forall i :: 0 <= i < limit ==> events[i].at == if i == 0 then 0 else window - 1
    ensures key in Run(events, limit, window) && Run(events, limit, window)[key] == Window(limit, 0)
    ensures Grants(events, key, limit, window) == [0] + Copies(window - 1, limit - 1)
  {
    OneMore([], key, 0, limit, window);
    var first := [] + [Request(key, 0)];
    Burst(first, key, Window(1, 0), window - 1, limit - 1, limit, window);
    assert [] + [0] == [0];
    events := first + Copies(Request(key, window - 1), limit - 1);
  }

  /** As many requests as the next window holds, all at its start. */
  lemma FillNext(events: seq<Event>, key: Key, limit: int, window: int) returns (more: seq<Event>)
    requires limit >= 1 && window >= 2
    requires key in Run(events, limit, window) && Run(events, limit, window)[key] == Window(limit, 0)
    ensures |more| == |events| + limit && events <= more && forall i :: |events| <= i < |more| ==> more[i].at == window
    ensures Grants(more, key, limit, window) ==
        Grants(events, key, limit, window) + [window] + Copies(window, limit - 1)
  {
    OneMore(events, key, window, limit, window);
    var begun := events + [Request(key, window)];
    Burst(begun, key, Window(1, window), window, limit - 1, limit, window);
    more := begun + Copies(Request(key, window), limit - 1);
  }

  lemma CountFilled(limit: int, window: int)
    requires limit >= 1 && window >= 2
    ensures InSpan([0] + Copies(window - 1, limit - 1) + [window] + Copies(window, limit - 1), window - 1, window) ==
        2 * limit - 1
  {
    var lo, hi := window - 1, window - 1 + window;
    CountSnoc([], 0, lo, hi);
    assert [] + [0] == [0];
    CountCopies([0], window - 1, limit - 1, lo, hi);
    var filled := [0] + Copies(window - 1, limit - 1);
    CountSnoc(filled, window, lo, hi);
    CountCopies(filled + [window], window, limit - 1, lo, hi);
  }

  /** For every limit and every window of at least two ticks the bound is met: a window opened early and
      filled at its end, then the next one filled at once. */
  lemma BoundIsMet(key: Key, limit: int, window: int) returns (events: seq<Event>)
    requires limit >= 1 && window >= 2
    ensures Monotone(events)
    ensures InSpan(Grants(events, key, limit, window), window - 1, window) == 2 * limit - 1
  {
    var late := FillLate(key, limit, window);
    events := FillNext(late, key, limit, window);
    forall i | 0 <= i < |late| ensures events[i] == late[i] {
    }
    CountFilled(limit, window);
  }
}
