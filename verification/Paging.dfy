/** `_page` and `merge_cursors` of src/sync/service.py. */
module Paging {
  import opened Wrappers

  /** A row of a query, with the server stamp it is ordered by. */
  datatype Stamped<+T> = Stamped(item: T, ts: int)

  datatype PageOf<+T> = PageOf(rows: seq<Stamped<T>>, next: Option<int>)

  ghost predicate Ordered<T>(rows: seq<Stamped<T>>) {
    forall i, j :: 0 <= i < j < |rows| ==> rows[i].ts <= rows[j].ts
  }

  /** `rows` is the answer set of a query in ascending stamp order, ties in any order. */
  ghost predicate Enumerates<T(!new)>(rows: seq<Stamped<T>>, answer: set<Stamped<T>>) {
    Ordered(rows) && Distinct(rows) && forall r :: r in rows <==> r in answer
  }

  function Select<T>(rows: seq<Stamped<T>>, keep: Stamped<T> -> bool): seq<Stamped<T>> {
    if rows == [] then []
    else (if keep(rows[0]) then [rows[0]] else []) + Select(rows[1..], keep)
  }

  /** Selecting what nothing unselected precedes takes a prefix. */
  lemma {:induction false} SelectTakesPrefix<T>(rows: seq<Stamped<T>>, keep: Stamped<T> -> bool) returns (n: nat)
    requires forall i, j :: 0 <= i < j < |rows| && keep(rows[j]) ==> keep(rows[i])
    ensures n <= |rows| && Select(rows, keep) == rows[..n]
    ensures forall i :: 0 <= i < |rows| ==> (keep(rows[i]) <==> i < n)
  {
    if rows == [] {
      n := 0;
    } else {
      var m := SelectTakesPrefix(rows[1..], keep);
      n := if keep(rows[0]) then m + 1 else 0;
      assert keep(rows[0]) ==> [rows[0]] + rows[1..][..m] == rows[..n];
      assert m > 0 ==> keep(rows[1..][0]) && rows[1..][0] == rows[1];
      forall i | 0 <= i < |rows|
        ensures keep(rows[i]) <==> i < n
      {
        if i > 0 {
          assert rows[i] == rows[1..][i - 1];
        }
      }
    }
  }

  function Below<T>(boundary: int): Stamped<T> -> bool {
    (r: Stamped<T>) => r.ts < boundary
  }

  function At<T>(boundary: int): Stamped<T> -> bool {
    (r: Stamped<T>) => r.ts == boundary
  }

  /** At most `limit` of the ordered rows, cut only between stamps, with the stamp it is complete to. */
  function Page<T>(rows: seq<Stamped<T>>, limit: nat): PageOf<T>
    requires limit >= 1
  {
    if |rows| <= limit then PageOf(rows, None)
    else
      var boundary := rows[limit].ts;
      var page := rows[..limit];
      if page[limit - 1].ts != boundary then PageOf(page, Some(page[limit - 1].ts))
      else
        var below := Select(page, Below<T>(boundary));
        if below != [] then PageOf(below, Some(below[|below| - 1].ts))
        else PageOf(Select(rows, At<T>(boundary)), Some(boundary))
  }

  /** What a page promises: everything up to its cursor, nothing beyond, no stamp split. */
  ghost predicate CompleteTo<T>(page: PageOf<T>, rows: seq<Stamped<T>>) {
    && page.rows <= rows
    && match page.next
       case None => page.rows == rows
       case Some(c) =>
         && page.rows != []
         && page.rows[|page.rows| - 1].ts == c
         && forall i :: 0 <= i < |rows| ==> (i < |page.rows| <==> rows[i].ts <= c)
  }

  /** The limit falls between two stamps. */
  lemma PageEndsBetweenStamps<T>(rows: seq<Stamped<T>>, limit: nat)
    requires 1 <= limit < |rows| && Ordered(rows) && rows[limit - 1].ts != rows[limit].ts
    ensures CompleteTo(PageOf(rows[..limit], Some(rows[limit - 1].ts)), rows)
  {
  }

  /** The limit falls inside the run of one stamp, and the page backs up to before it. */
  lemma PageBacksUp<T>(rows: seq<Stamped<T>>, limit: nat)
    requires 1 <= limit < |rows| && Ordered(rows) && Select(rows[..limit], Below<T>(rows[limit].ts)) != []
    ensures var below := Select(rows[..limit], Below<T>(rows[limit].ts));
      |below| <= limit && CompleteTo(PageOf(below, Some(below[|below| - 1].ts)), rows)
  {
    hide Select;
    var n := SelectTakesPrefix(rows[..limit], Below<T>(rows[limit].ts));
    assert rows[..limit][..n] == rows[..n];
    assert forall i :: 0 <= i < limit ==> rows[..limit][i] == rows[i];
    assert forall i :: 0 <= i < limit ==> (rows[i].ts < rows[limit].ts <==> i < n);
  }

  /** The run of one stamp fills the page from its start, and is handed out whole. */
  lemma PageIsOneRun<T>(rows: seq<Stamped<T>>, limit: nat)
    requires 1 <= limit < |rows| && Ordered(rows) && Select(rows[..limit], Below<T>(rows[limit].ts)) == []
    ensures var run := Select(rows, At<T>(rows[limit].ts));
      CompleteTo(PageOf(run, Some(rows[limit].ts)), rows) && forall r :: r in run ==> r.ts == rows[limit].ts
  {
    hide Select;
    var n := SelectTakesPrefix(rows[..limit], Below<T>(rows[limit].ts));
    assert rows[..limit][0] == rows[0] && rows[0].ts == rows[limit].ts;
    var m := SelectTakesPrefix(rows, At<T>(rows[limit].ts));
    assert At<T>(rows[limit].ts)(rows[limit]) && limit < m;
    assert forall i :: 0 <= i < |rows| ==> (rows[i].ts == rows[limit].ts <==> i < m);
  }

  /**
   * A page is complete to its cursor, and holds no more than `limit` rows unless
   * one stamp alone fills more than a page.
   */
  lemma PageIsComplete<T>(rows: seq<Stamped<T>>, limit: nat)
    requires limit >= 1 && Ordered(rows)
    ensures CompleteTo(Page(rows, limit), rows)
    ensures |Page(rows, limit).rows| <= limit ||
            forall r :: r in Page(rows, limit).rows ==> Some(r.ts) == Page(rows, limit).next
  {
    if |rows| > limit {
      hide Select, Below, At, Ordered;
      if rows[limit - 1].ts != rows[limit].ts {
        PageEndsBetweenStamps(rows, limit);
      } else if Select(rows[..limit], Below<T>(rows[limit].ts)) != [] {
        PageBacksUp(rows, limit);
      } else {
        PageIsOneRun(rows, limit);
      }
    }
  }

  /** The first `n` rows end where a stamp does. */
  predicate EndsAtABreak<T(!new)>(rows: seq<Stamped<T>>, n: nat)
    requires n <= |rows|
  {
    n == 0 || n == |rows| || rows[n - 1].ts != rows[n].ts
  }

  /**
   * A page is as long as the limit allows: it holds every stretch of whole stamps,
   * from the start, that fits; and there is a cursor exactly when something is left.
   */
  lemma PageIsLongest<T(!new)>(rows: seq<Stamped<T>>, limit: nat, n: nat)
    requires limit >= 1 && Ordered(rows)
    requires n <= |rows| && n <= limit && EndsAtABreak(rows, n)
    ensures n <= |Page(rows, limit).rows|
    ensures Page(rows, limit).next.None? <==> |rows| <= limit
  {
    if |rows| > limit && rows[limit - 1].ts == rows[limit].ts {
      hide Select;
      var boundary := rows[limit].ts;
      var m := SelectTakesPrefix(rows[..limit], Below<T>(boundary));
      assert forall i :: 0 <= i < limit ==> rows[..limit][i] == rows[i];
      assert forall i :: 0 <= i < limit ==> (rows[i].ts < boundary <==> i < m);
      assert n > 0 ==> rows[n - 1].ts <= boundary;
      assert rows[n].ts <= boundary;
    }
  }

  /** The pull is complete only as far as its shorter stream; no cut, no cursor. */
  function MergeCursors(a: Option<int>, b: Option<int>): Option<int> {
    if a.None? then b
    else if b.None? then a
    else Some(if a.value <= b.value then a.value else b.value)
  }
}
