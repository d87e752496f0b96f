/** Keyset pagination over a table that only grows at the end: following the cursors visits every
    matching row once. */
module KeysetPages {
  import opened GoText

  const DEFAULT_CURSOR_LIMIT := 100

  datatype Row<T> = Row(id: int, value: T)

  /** A cursor after decoding: none was given, the id it carries, or text that does not decode. */
  datatype Cursor = NoCursor | After(id: int) | Malformed

  datatype Page<T> = Page(results: seq<Row<T>>, next: Cursor, total: nat)

  function NormalizeLimit(limit: int): int {
    if limit <= 0 then DEFAULT_CURSOR_LIMIT else limit
  }

  /** Ids are the primary key, and the table is read in their order. */
  predicate ById<T>(rows: seq<Row<T>>) {
    forall i, j :: 0 <= i < j < |rows| ==> rows[i].id < rows[j].id
  }

  predicate Keeps<T>(keep: T -> bool, after: int, row: Row<T>) {
    row.id > after && keep(row.value)
  }

  /** The rows a query selects: those past the cursor that pass the filter. */
  function Matching<T>(rows: seq<Row<T>>, keep: T -> bool, after: int): seq<Row<T>> {
    if rows == [] then []
    else
      var last := rows[|rows| - 1];
      Matching(rows[..|rows| - 1], keep, after) + (if Keeps(keep, after, last) then [last] else [])
  }

  /** `ORDER BY id ASC LIMIT n`. */
  method Select<T>(rows: seq<Row<T>>, keep: T -> bool, after: int, n: nat) returns (found: seq<Row<T>>)
    ensures found == (var m := Matching(rows, keep, after); if |m| <= n then m else m[..n])
  {
    found := [];
    var i := 0;
    while i < |rows| && |found| < n
      invariant 0 <= i <= |rows| && |found| <= n
      invariant found == Matching(rows[..i], keep, after)
    {
      assert rows[..i + 1][..i] == rows[..i];
      if rows[i].id > after && keep(rows[i].value) {
        found := found + [rows[i]];
      }
      i := i + 1;
    }
    assert rows == rows[..i] + rows[i..];
    MatchingAppend(rows[..i], rows[i..], keep, after);
  }

  method Count<T>(rows: seq<Row<T>>, keep: T -> bool) returns (n: nat)
    ensures n == |MatchingAll(rows, keep)|
  {
    n := 0;
    for i := 0 to |rows|
      invariant n == |MatchingAll(rows[..i], keep)|
    {
      assert rows[..i + 1][..i] == rows[..i];
      if keep(rows[i].value) {
        n := n + 1;
      }
    }
    assert rows[..|rows|] == rows;
  }

  /** The rows that pass the filter, wherever the cursor is. */
  function MatchingAll<T>(rows: seq<Row<T>>, keep: T -> bool): seq<Row<T>> {
    if rows == [] then []
    else
      var last := rows[|rows| - 1];
      MatchingAll(rows[..|rows| - 1], keep) + (if keep(last.value) then [last] else [])
  }

  /** `p` is the page that a query for the rows past `after` yields. */
  ghost predicate IsPage<T>(p: Page<T>, rows: seq<Row<T>>, keep: T -> bool, after: int, limit: int) {
    var m := Matching(rows, keep, after);
    var n := NormalizeLimit(limit);
    && (if |m| > n then p.results == m[..n] && p.next == After(m[n - 1].id) else p.results == m && p.next == NoCursor)
    && p.total == |MatchingAll(rows, keep)|
  }

  function Position(cursor: Cursor): int {
    match cursor
    case After(id) => id
    case _ => 0
  }

  /** One query: a page, or None when the cursor does not decode. */
  method QueryPage<T>(rows: seq<Row<T>>, keep: T -> bool, cursor: Cursor, limit: int) returns (r: Option<Page<T>>)
    ensures r.None? <==> cursor.Malformed?
    ensures r.Some? ==> IsPage(r.value, rows, keep, Position(cursor), limit)
  {
    var n := NormalizeLimit(limit);
    if cursor.Malformed? {
      return None;
    }
    var found := Select(rows, keep, Position(cursor), n + 1);
    var total := Count(rows, keep);
    if |found| > n {
      return Some(Page(found[..n], After(found[n - 1].id), total));
    }
    return Some(Page(found, NoCursor, total));
  }

  // ---------- Following the cursors ----------

  lemma {:induction false} MatchingAppend<T>(rows: seq<Row<T>>, more: seq<Row<T>>, keep: T -> bool, after: int)
    ensures Matching(rows + more, keep, after) == Matching(rows, keep, after) + Matching(more, keep, after)
  {
    if more == [] {
      assert rows + more == rows;
    } else {
      MatchingAppend(rows, more[..|more| - 1], keep, after);
      assert (rows + more)[..|rows + more| - 1] == rows + more[..|more| - 1];
    }
  }

  lemma {:induction false} MatchesAreRows<T>(rows: seq<Row<T>>, keep: T -> bool, after: int, k: nat)
    requires k < |Matching(rows, keep, after)|
    ensures Matching(rows, keep, after)[k] in rows && Keeps(keep, after, Matching(rows, keep, after)[k])
  {
    var init := rows[..|rows| - 1];
    if k < |Matching(init, keep, after)| {
      MatchesAreRows(init, keep, after, k);
    }
  }

  lemma {:induction false} NothingPast<T>(rows: seq<Row<T>>, keep: T -> bool, after: int)
    requires forall row :: row in rows ==> row.id <= after
    ensures Matching(rows, keep, after) == []
  {
    if rows != [] {
      NothingPast(rows[..|rows| - 1], keep, after);
    }
  }

  /** Past the id of the k-th match come exactly the later matches. */
  lemma {:induction false} PastMatch<T>(rows: seq<Row<T>>, keep: T -> bool, after: int, k: nat)
    requires ById(rows) && 0 < k <= |Matching(rows, keep, after)|
    ensures Matching(rows, keep, Matching(rows, keep, after)[k - 1].id) == Matching(rows, keep, after)[k..]
  {
    var init, last := rows[..|rows| - 1], rows[|rows| - 1];
    var m := Matching(init, keep, after);
    if k <= |m| {
      PastMatch(init, keep, after, k);
      MatchesAreRows(init, keep, after, k - 1);
    } else {
      NothingPast(rows, keep, last.id);
    }
  }

  /** Rows past every id seen so far match alike from either position. */
  lemma {:induction false} NewRowsMatch<T>(more: seq<Row<T>>, keep: T -> bool, low: int, high: int)
    requires low <= high && forall row :: row in more ==> row.id > high
    ensures Matching(more, keep, low) == Matching(more, keep, high)
  {
    if more != [] {
      NewRowsMatch(more[..|more| - 1], keep, low, high);
    }
  }

  /** The k-th query uses the cursor of the page before; rows may have been added at the end since. */
  ghost predicate Asks<T>(tables: seq<seq<Row<T>>>, limits: seq<int>, pages: seq<Page<T>>, keep: T -> bool, k: nat)
    requires |tables| == |limits| == |pages| && k < |pages|
  {
    && ById(tables[k])
    && (k == 0 ==> IsPage(pages[0], tables[0], keep, 0, limits[0]))
    && (k > 0 ==>
      && tables[k - 1] <= tables[k]
      && pages[k - 1].next.After? && IsPage(pages[k], tables[k], keep, pages[k - 1].next.id, limits[k]))
  }

  /** A reader asks for page after page, each time with any limit. */
  ghost predicate Browse<T>(tables: seq<seq<Row<T>>>, limits: seq<int>, pages: seq<Page<T>>, keep: T -> bool) {
    && |tables| == |limits| == |pages| > 0
    && forall k: nat :: k < |pages| ==> Asks(tables, limits, pages, keep, k)
  }

  function Seen<T>(pages: seq<Page<T>>): seq<Row<T>> {
    if pages == [] then [] else Seen(pages[..|pages| - 1]) + pages[|pages| - 1].results
  }

  /** What is still to come after a page. */
  function Rest<T>(p: Page<T>, rows: seq<Row<T>>, keep: T -> bool): seq<Row<T>> {
    if p.next.After? then Matching(rows, keep, p.next.id) else []
  }

  predicate HasId<T>(rows: seq<Row<T>>, id: int) {
    exists i :: 0 <= i < |rows| && rows[i].id == id
  }

  lemma PageSplits<T>(p: Page<T>, rows: seq<Row<T>>, keep: T -> bool, after: int, limit: int)
    requires ById(rows) && IsPage(p, rows, keep, after, limit)
    ensures p.results + Rest(p, rows, keep) == Matching(rows, keep, after)
    ensures p.next.After? ==> p.next.id > after && HasId(rows, p.next.id) && |p.results| == NormalizeLimit(limit)
    ensures !p.next.Malformed?
  {
    var m, n := Matching(rows, keep, after), NormalizeLimit(limit);
    if |m| > n {
      PastMatch(rows, keep, after, n);
      MatchesAreRows(rows, keep, after, n - 1);
      assert m == m[..n] + m[n..];
    }
  }

  lemma {:induction false} MatchingById<T>(rows: seq<Row<T>>, keep: T -> bool, after: int)
    requires ById(rows)
    ensures ById(Matching(rows, keep, after))
  {
    if rows != [] {
      var init := rows[..|rows| - 1];
      MatchingById(init, keep, after);
      var m := Matching(init, keep, after);
      forall i | 0 <= i < |m| ensures m[i].id < rows[|rows| - 1].id {
        MatchesAreRows(init, keep, after, i);
      }
    }
  }

  lemma {:induction false} EveryMatchListed<T>(rows: seq<Row<T>>, keep: T -> bool, after: int, row: Row<T>)
    requires row in rows && Keeps(keep, after, row)
    ensures row in Matching(rows, keep, after)
  {
    if row != rows[|rows| - 1] {
      EveryMatchListed(rows[..|rows| - 1], keep, after, row);
    }
  }

  /** A page has at most as many rows as were asked for, 100 when nothing sensible was, and exactly so many
      when a cursor follows. */
  lemma PageSize<T>(p: Page<T>, rows: seq<Row<T>>, keep: T -> bool, after: int, limit: int)
    requires IsPage(p, rows, keep, after, limit)
    ensures var most := if limit > 0 then limit else 100;
            |p.results| <= most && (p.next.After? ==> |p.results| == most)
  {
  }

  /** A page lists rows of the table that pass the filter and lie past the cursor, and leaves out such a row
      only if a cursor follows that the row lies past. */
  lemma PageIsExact<T>(p: Page<T>, rows: seq<Row<T>>, keep: T -> bool, after: int, limit: int, row: Row<T>)
    requires ById(rows) && IsPage(p, rows, keep, after, limit)
    ensures row in p.results <==>
              row in rows && Keeps(keep, after, row) && (p.next.After? ==> row.id <= p.next.id)
  {
    MatchingById(rows, keep, after);
    var m, n := Matching(rows, keep, after), NormalizeLimit(limit);
    if row in rows && Keeps(keep, after, row) {
      EveryMatchListed(rows, keep, after, row);
    }
    if row in m {
      var k: nat :| k < |m| && m[k] == row;
      MatchesAreRows(rows, keep, after, k);
    }
    if |m| > n {
      FrontOfSorted(m, n, row);
    }
  }

  lemma FrontOfSorted<T>(m: seq<Row<T>>, n: nat, row: Row<T>)
    requires ById(m) && 0 < n < |m|
    ensures row in m[..n] <==> row in m && row.id <= m[n - 1].id
  {
    if row in m {
      var k :| 0 <= k < |m| && m[k] == row;
      assert k < n ==> m[..n][k] == row;
    }
  }

  /** Rows added at the end add the same matches for the start and for the reader's position. */
  lemma AddedMatches<T>(before: seq<Row<T>>, rows: seq<Row<T>>, keep: T -> bool, after: int)
      returns (added: seq<Row<T>>)
    requires before <= rows && ById(rows) && after > 0 && HasId(before, after)
    ensures Matching(rows, keep, 0) == Matching(before, keep, 0) + added
    ensures Matching(rows, keep, after) == Matching(before, keep, after) + added
  {
    var more := rows[|before|..];
    assert rows == before + more;
    var i :| 0 <= i < |before| && before[i].id == after;
    forall k | 0 <= k < |more| ensures more[k].id > after {
      assert rows[i].id < rows[|before| + k].id;
    }
    added := Matching(more, keep, 0);
    MatchingAppend(before, more, keep, 0);
    MatchingAppend(before, more, keep, after);
    NewRowsMatch(more, keep, 0, after);
  }

  lemma NextPage<T>(seen: seq<Row<T>>, before: seq<Row<T>>, rows: seq<Row<T>>, p: Page<T>, keep: T -> bool,
      after: int, limit: int)
    requires seen + Matching(before, keep, after) == Matching(before, keep, 0)
    requires before <= rows && ById(rows) && after > 0 && HasId(before, after) && IsPage(p, rows, keep, after, limit)
    ensures seen + p.results + Rest(p, rows, keep) == Matching(rows, keep, 0)
  {
    var added := AddedMatches(before, rows, keep, after);
    PageSplits(p, rows, keep, after, limit);
    Regroup(seen, Matching(before, keep, after), added, p.results, Rest(p, rows, keep));
  }

  lemma Regroup<T>(a: seq<T>, b: seq<T>, c: seq<T>, d: seq<T>, e: seq<T>)
    requires d + e == b + c
    ensures a + d + e == a + b + c
  {
    assert a + d + e == a + (d + e);
    assert a + b + c == a + (b + c);
  }

  /** Everything seen and everything still to come are the matching rows with a positive id, in order and
      each once, whatever was added meanwhile; on the last page nothing is still to come. */
  lemma {:induction false} BrowsingSeesEveryRow<T>(tables: seq<seq<Row<T>>>, limits: seq<int>, pages: seq<Page<T>>,
      keep: T -> bool)
    requires Browse(tables, limits, pages, keep)
    ensures Seen(pages) + Rest(pages[|pages| - 1], tables[|pages| - 1], keep) == Matching(tables[|pages| - 1], keep, 0)
    ensures pages[|pages| - 1].next.After? ==>
      pages[|pages| - 1].next.id > 0 && HasId(tables[|pages| - 1], pages[|pages| - 1].next.id)
  {
    var n := |pages| - 1;
    assert Asks(tables, limits, pages, keep, n);
    if n == 0 {
      PageSplits(pages[0], tables[0], keep, 0, limits[0]);
      assert Seen(pages) == pages[0].results;
    } else {
      forall k: nat | k < n ensures Asks(tables[..n], limits[..n], pages[..n], keep, k) {
        assert Asks(tables, limits, pages, keep, k);
      }
      BrowsingSeesEveryRow(tables[..n], limits[..n], pages[..n], keep);
      var c := pages[n - 1].next.id;
      NextPage(Seen(pages[..n]), tables[n - 1], tables[n], pages[n], keep, c, limits[n]);
      PageSplits(pages[n], tables[n], keep, c, limits[n]);
    }
  }

  /** A reader who reaches a page without a cursor has seen exactly the rows of the last table that match
      and have a positive id, in the order of their ids and so each once. */
  lemma BrowsingToTheEnd<T>(tables: seq<seq<Row<T>>>, limits: seq<int>, pages: seq<Page<T>>, keep: T -> bool,
      row: Row<T>)
    requires Browse(tables, limits, pages, keep) && pages[|pages| - 1].next.NoCursor?
    ensures ById(Seen(pages))
    ensures row in Seen(pages) <==> row in tables[|pages| - 1] && row.id > 0 && keep(row.value)
  {
    var rows := tables[|pages| - 1];
    BrowsingSeesEveryRow(tables, limits, pages, keep);
    assert Asks(tables, limits, pages, keep, |pages| - 1);
    assert Seen(pages) == Matching(rows, keep, 0);
    MatchingById(rows, keep, 0);
    if row in Seen(pages) {
      var k: nat :| k < |Seen(pages)| && Seen(pages)[k] == row;
      MatchesAreRows(rows, keep, 0, k);
    }
    if row in rows && Keeps(keep, 0, row) {
      EveryMatchListed(rows, keep, 0, row);
    }
  }
}
