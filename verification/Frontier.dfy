/** The crawl frontier: a binary heap by depth that accepts every URL once. */
module Frontier {
  import opened GoText

  datatype Item = Item(urlId: int, url: string, host: string, depth: int)

  // ---------- The frontier as a value ----------

  datatype Contents = Contents(items: multiset<Item>, seen: set<int>)

  const EMPTY := Contents(multiset{}, {})

  /** Effect of `Push`: a URL that was pushed before is ignored. */
  function Pushed(f: Contents, item: Item): Contents {
    if item.urlId in f.seen then f else Contents(f.items + multiset{item}, f.seen + {item.urlId})
  }

  ghost predicate IsLeast(items: multiset<Item>, item: Item) {
    item in items && forall other :: other in items ==> item.depth <= other.depth
  }

  /** Effect of `Pop`: some item of least depth leaves; ties are decided by the heap. */
  ghost predicate Popped(f: Contents, result: Option<Item>, f': Contents) {
    match result
    case None => f.items == multiset{} && f' == f
    case Some(item) => IsLeast(f.items, item) && f' == f.(items := f.items - multiset{item})
  }

  // ---------- The heap ----------

  function Parent(k: int): int
    requires k > 0
  {
    (k - 1) / 2
  }

  ghost predicate Ordered(h: seq<Item>, n: int)
    requires n <= |h|
  {
    forall k {:trigger Parent(k)} :: 0 < k < n ==> h[Parent(k)].depth <= h[k].depth
  }

  /** Heap order everywhere except between `i` and its parent. */
  ghost predicate OrderedExceptAbove(h: seq<Item>, i: int) {
    && (forall k {:trigger Parent(k)} :: 0 < k < |h| && k != i ==> h[Parent(k)].depth <= h[k].depth)
    && (forall k {:trigger Parent(k)} :: 0 < k < |h| && Parent(k) == i && 0 < i < |h| ==>
        h[Parent(i)].depth <= h[k].depth)
  }

  /** Heap order among the first `n` except between `i` and its children. */
  ghost predicate OrderedExceptBelow(h: seq<Item>, n: int, i: int)
    requires n <= |h|
  {
    && (forall k {:trigger Parent(k)} :: 0 < k < n && Parent(k) != i ==> h[Parent(k)].depth <= h[k].depth)
    && (forall k {:trigger Parent(k)} :: 0 < k < n && Parent(k) == i && 0 < i < n ==> h[Parent(i)].depth <= h[k].depth)
  }

  lemma {:induction false} RootIsLeast(h: seq<Item>, k: nat)
    requires k < |h| && Ordered(h, |h|)
    ensures h[0].depth <= h[k].depth
  {
    if k > 0 {
      RootIsLeast(h, Parent(k));
    }
  }

  function Swapped(h: seq<Item>, i: nat, j: nat): (r: seq<Item>)
    requires i < |h| && j < |h|
    ensures |r| == |h| && multiset(r) == multiset(h)
  {
    h[i := h[j]][j := h[i]]
  }

  lemma UpStep(h: seq<Item>, j: nat)
    requires 0 < j < |h| && OrderedExceptAbove(h, j) && h[j].depth < h[Parent(j)].depth
    ensures OrderedExceptAbove(Swapped(h, Parent(j), j), Parent(j))
  {
    var i := Parent(j);
    var r := Swapped(h, i, j);
    forall k | 0 < k < |r| && k != i
      ensures r[Parent(k)].depth <= r[k].depth
    {
      assert k == j || Parent(k) == j || Parent(k) == i || r[Parent(k)] == h[Parent(k)];
      assert h[Parent(k)].depth <= h[k].depth || k == j;
    }
    if i > 0 {
      assert h[Parent(i)].depth <= h[i].depth;
      forall k | 0 < k < |r| && Parent(k) == i
        ensures r[Parent(i)].depth <= r[k].depth
      {
        assert k != j ==> h[i].depth <= h[k].depth;
      }
    }
  }

  lemma DownStep(h: seq<Item>, n: nat, i: nat, j: nat)
    requires i < j < n <= |h| && Parent(j) == i && OrderedExceptBelow(h, n, i)
    requires 2 * i + 1 < n ==> h[j].depth <= h[2 * i + 1].depth
    requires 2 * i + 2 < n ==> h[j].depth <= h[2 * i + 2].depth
    requires h[j].depth < h[i].depth
    ensures OrderedExceptBelow(Swapped(h, i, j), n, j)
    ensures Swapped(h, i, j)[n..] == h[n..]
  {
    forall k | 0 < k < n && Parent(k) == i ensures h[j].depth <= h[k].depth {
      assert k == 2 * i + 1 || k == 2 * i + 2;
    }
    var r := Swapped(h, i, j);
    forall k | 0 < k < n && Parent(k) != j
      ensures r[Parent(k)].depth <= r[k].depth
    {
      if k == i {
        assert h[Parent(i)].depth <= h[j].depth;
      } else if Parent(k) != i {
        assert h[Parent(k)].depth <= h[k].depth;
      }
    }
    forall k | 0 < k < n && Parent(k) == j
      ensures r[Parent(j)].depth <= r[k].depth
    {
      assert h[Parent(k)].depth <= h[k].depth;
    }
  }

  lemma RootSwappedOut(h: seq<Item>)
    requires |h| > 0 && Ordered(h, |h|)
    ensures OrderedExceptBelow(Swapped(h, 0, |h| - 1), |h| - 1, 0)
    ensures IsLeast(multiset(h), h[0])
  {
    forall item | item in multiset(h) ensures h[0].depth <= item.depth {
      var k :| 0 <= k < |h| && h[k] == item;
      RootIsLeast(h, k);
    }
  }

  /** No URL is in the bag twice. */
  ghost predicate DistinctUrls(items: multiset<Item>) {
    forall x, y {:trigger SameUrl(x, y)} :: SameUrl(x, y) && x in items && y in items ==> x == y && items[x] == 1
  }

  predicate SameUrl(x: Item, y: Item) {
    x.urlId == y.urlId
  }

  lemma StillDistinct(items: multiset<Item>, item: Item)
    requires DistinctUrls(items)
    ensures DistinctUrls(items - multiset{item})
    ensures forall x :: x in items - multiset{item} ==> x in items
  {
    forall x, y | SameUrl(x, y) && x in items - multiset{item} && y in items - multiset{item}
      ensures x == y && (items - multiset{item})[x] == 1
    {
      assert x in items && y in items;
    }
  }

  lemma DistinctWithNew(items: multiset<Item>, item: Item)
    requires DistinctUrls(items) && forall x :: x in items ==> x.urlId != item.urlId
    ensures DistinctUrls(items + multiset{item})
  {
    forall x, y | SameUrl(x, y) && x in items + multiset{item} && y in items + multiset{item}
      ensures x == y && (items + multiset{item})[x] == 1
    {
    }
  }

  class Queue {
    var h: seq<Item>
    var seen: set<int>

    ghost predicate Valid()
      reads this
    {
      && Ordered(h, |h|)
      && (forall item :: item in multiset(h) ==> item.urlId in seen)
      && DistinctUrls(multiset(h))
    }

    ghost function Value(): Contents
      reads this
    {
      Contents(multiset(h), seen)
    }

    constructor ()
      ensures Valid() && Value() == EMPTY
    {
      h, seen := [], {};
    }

    method Push(item: Item)
      requires Valid()
      modifies this
      ensures Valid() && Value() == Pushed(old(Value()), item)
    {
      if item.urlId in seen {
        return;
      }
      DistinctWithNew(multiset(h), item);
      seen := seen + {item.urlId};
      HeapPush(item);
    }

    /** `heap.Push`. */
    method HeapPush(item: Item)
      requires Ordered(h, |h|)
      modifies `h
      ensures Ordered(h, |h|) && multiset(h) == old(multiset(h)) + multiset{item}
    {
      h := h + [item];
      Up(|h| - 1);
    }

    /** `up` of container/heap. */
    method Up(start: nat)
      requires start < |h| && OrderedExceptAbove(h, start)
      modifies `h
      ensures Ordered(h, |h|) && multiset(h) == old(multiset(h))
    {
      var j := start;
      while j > 0
        invariant 0 <= j < |h| && OrderedExceptAbove(h, j)
        invariant multiset(h) == old(multiset(h))
      {
        var i := Parent(j);
        if !(h[j].depth < h[i].depth) {
          return;
        }
        UpStep(h, j);
        h := Swapped(h, i, j);
        j := i;
      }
    }

    method Pop() returns (result: Option<Item>)
      requires Valid()
      modifies this
      ensures Valid() && Popped(old(Value()), result, Value())
    {
      if |h| == 0 {
        return None;
      }
      RootSwappedOut(h);
      StillDistinct(multiset(h), h[0]);
      var item := HeapPop();
      result := Some(item);
    }

    /** `heap.Pop`. */
    method HeapPop() returns (item: Item)
      requires |h| > 0 && Ordered(h, |h|)
      modifies `h
      ensures item == old(h)[0] && Ordered(h, |h|) && multiset(h) == old(multiset(h)) - multiset{item}
    {
      var n := |h| - 1;
      RootSwappedOut(h);
      h := Swapped(h, 0, n);
      assert h[n..] == [old(h)[0]];
      Down(n);
      item := h[n];
      assert h == h[..n] + [item];
      h := h[..n];
    }

    /** `down` of container/heap from the root, among the first `n` items. */
    method Down(n: nat)
      requires n < |h| && OrderedExceptBelow(h, n, 0)
      modifies `h
      ensures |h| == old(|h|) && Ordered(h, n) && multiset(h) == old(multiset(h)) && h[n..] == old(h[n..])
    {
      var i := 0;
      while 2 * i + 1 < n
        invariant 0 <= i && |h| == old(|h|) && OrderedExceptBelow(h, n, i)
        invariant multiset(h) == old(multiset(h)) && h[n..] == old(h[n..])
        decreases n - i
      {
        var j := 2 * i + 1;
        if j + 1 < n && h[j + 1].depth < h[j].depth {
          j := j + 1;
        }
        if !(h[j].depth < h[i].depth) {
          return;
        }
        DownStep(h, n, i, j);
        h := Swapped(h, i, j);
        i := j;
      }
    }

    method Len() returns (n: nat)
      requires Valid()
      ensures n == |Value().items|
    {
      n := |h|;
    }

    /** The next item to be popped may be any of the least ones; an empty queue gives the zero item. */
    method Peek() returns (item: Item)
      requires Valid()
      ensures if Value().items == multiset{} then item == Item(0, "", "", 0) else IsLeast(Value().items, item)
    {
      if |h| == 0 {
        return Item(0, "", "", 0);
      }
      item := h[0];
      forall k: nat | k < |h| ensures h[0].depth <= h[k].depth {
        RootIsLeast(h, k);
      }
    }

    method Contains(urlId: int) returns (found: bool)
      ensures found <==> urlId in Value().seen
    {
      found := urlId in seen;
    }
  }

  // ---------- Any sequence of calls ----------

  datatype Call = PushCall(item: Item) | PopCall(result: Option<Item>)

  ghost predicate Called(f: Contents, call: Call, f': Contents) {
    match call
    case PushCall(item) => f' == Pushed(f, item)
    case PopCall(result) => Popped(f, result, f')
  }

  /** The calls lead from a new queue through `states`. */
  ghost predicate History(calls: seq<Call>, states: seq<Contents>) {
    |states| == |calls| + 1 && states[0] == EMPTY
    && forall i :: 0 <= i < |calls| ==> Called(states[i], calls[i], states[i + 1])
  }

  function PushedIds(calls: seq<Call>): set<int> {
    if calls == [] then {}
    else
      var last := calls[|calls| - 1];
      PushedIds(calls[..|calls| - 1]) + if last.PushCall? then {last.item.urlId} else {}
  }

  /** The first item pushed for every URL. */
  function FirstPushes(calls: seq<Call>): multiset<Item> {
    if calls == [] then multiset{}
    else
      var last, init := calls[|calls| - 1], calls[..|calls| - 1];
      FirstPushes(init)
      + if last.PushCall? && last.item.urlId !in PushedIds(init) then multiset{last.item} else multiset{}
  }

  function PoppedItems(calls: seq<Call>): multiset<Item> {
    if calls == [] then multiset{}
    else
      var last := calls[|calls| - 1];
      PoppedItems(calls[..|calls| - 1])
      + if last.PopCall? && last.result.Some? then multiset{last.result.value} else multiset{}
  }

  ghost predicate Conserved(calls: seq<Call>, f: Contents) {
    && f.seen == PushedIds(calls)
    && PoppedItems(calls) + f.items == FirstPushes(calls)
    && DistinctUrls(FirstPushes(calls))
    && forall x :: x in FirstPushes(calls) ==> x.urlId in PushedIds(calls)
  }

  lemma ConservedByPush(init: seq<Call>, item: Item, f: Contents)
    requires Conserved(init, f)
    ensures Conserved(init + [PushCall(item)], Pushed(f, item))
  {
    var calls := init + [PushCall(item)];
    assert calls[..|calls| - 1] == init;
    assert PoppedItems(calls) == PoppedItems(init);
    if item.urlId in f.seen {
      assert FirstPushes(calls) == FirstPushes(init);
      assert PushedIds(calls) == PushedIds(init);
    } else {
      DistinctWithNew(FirstPushes(init), item);
    }
  }

  lemma ConservedByPop(init: seq<Call>, result: Option<Item>, f: Contents, f': Contents)
    requires Conserved(init, f) && Popped(f, result, f')
    ensures Conserved(init + [PopCall(result)], f')
  {
    var calls := init + [PopCall(result)];
    assert calls[..|calls| - 1] == init;
    assert FirstPushes(calls) == FirstPushes(init) && PushedIds(calls) == PushedIds(init);
    if result.Some? {
      assert f.items == f'.items + multiset{result.value};
    }
  }

  lemma ConservedByCall(init: seq<Call>, last: Call, f: Contents, f': Contents)
    requires Conserved(init, f) && Called(f, last, f')
    ensures Conserved(init + [last], f')
  {
    match last
    case PushCall(item) => ConservedByPush(init, item, f);
    case PopCall(result) => ConservedByPop(init, result, f, f');
  }

  lemma LastCall(calls: seq<Call>, states: seq<Contents>)
    requires History(calls, states) && calls != []
    ensures var n := |calls| - 1;
            History(calls[..n], states[..n + 1]) && Called(states[n], calls[n], states[n + 1])
  {
  }

  /** What was popped and what is still queued are together exactly the first pushes, each URL once;
      in particular no URL is popped twice, and a later push of a URL changes nothing. */
  lemma {:induction false} Conservation(calls: seq<Call>, states: seq<Contents>)
    requires History(calls, states)
    ensures Conserved(calls, states[|calls|])
  {
    if calls == [] {
      assert states[0] == EMPTY;
    } else {
      var n := |calls| - 1;
      LastCall(calls, states);
      Conservation(calls[..n], states[..n + 1]);
      ConservedByCall(calls[..n], calls[n], states[n], states[n + 1]);
      assert calls == calls[..n] + [calls[n]];
    }
  }

  /** `Contains` never goes from true to false, and it is true of exactly the URLs pushed so far. */
  lemma {:induction false} SeenOnlyGrows(calls: seq<Call>, states: seq<Contents>, i: nat, j: nat)
    requires History(calls, states) && i <= j <= |calls|
    ensures states[i].seen <= states[j].seen
    decreases j
  {
    if i < j {
      SeenOnlyGrows(calls, states, i, j - 1);
      assert Called(states[j - 1], calls[j - 1], states[j]);
    }
  }

  /** A pop that follows another one without a push in between gives an item at least as deep. */
  lemma PopsDescend(f: Contents, first: Item, f': Contents, second: Item, f'': Contents)
    requires Popped(f, Some(first), f') && Popped(f', Some(second), f'')
    ensures first.depth <= second.depth
  {
    assert second in f.items;
  }
}
