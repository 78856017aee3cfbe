/** Filtering and stable ordering of rows, the part of SQL that the repositories use. Ties keep table order. */
module Query {

  /** Inserts a row behind every row that may precede it. */
  function InsertRow<T>(rows: seq<T>, r: T, leq: (T, T) -> bool): seq<T> {
    if rows == [] then [r]
    else
      var n := |rows| - 1;
      if leq(rows[n], r) then rows + [r] else InsertRow(rows[..n], r, leq) + [rows[n]]
  }

  function OrderBy<T>(rows: seq<T>, leq: (T, T) -> bool): seq<T> {
    if rows == [] then [] else InsertRow(OrderBy(rows[..|rows| - 1], leq), rows[|rows| - 1], leq)
  }

  function Where<T(!new)>(rows: seq<T>, p: T -> bool): (kept: seq<T>)
    ensures forall r :: r in kept <==> r in rows && p(r)
  {
    if rows == [] then []
    else
      var front, last := Where(rows[..|rows| - 1], p), rows[|rows| - 1];
      assert rows == rows[..|rows| - 1] + [last];
      if p(last) then front + [last] else front
  }

  ghost predicate IsSorted<T>(rows: seq<T>, leq: (T, T) -> bool) {
    forall i, j :: 0 <= i < j < |rows| ==> leq(rows[i], rows[j])
  }

  ghost predicate IsOrder<T(!new)>(leq: (T, T) -> bool) {
    && (forall a, b :: leq(a, b) || leq(b, a))
    && (forall a, b, c :: leq(a, b) && leq(b, c) ==> leq(a, c))
  }

  lemma {:induction false} InsertRowRows<T>(rows: seq<T>, r: T, leq: (T, T) -> bool)
    ensures multiset(InsertRow(rows, r, leq)) == multiset(rows) + multiset{r}
  {
    if rows != [] {
      var n := |rows| - 1;
      assert rows == rows[..n] + [rows[n]];
      InsertRowRows(rows[..n], r, leq);
    }
  }

  lemma {:induction false} OrderByRows<T>(rows: seq<T>, leq: (T, T) -> bool)
    ensures multiset(OrderBy(rows, leq)) == multiset(rows)
  {
    if rows != [] {
      var n := |rows| - 1;
      assert rows == rows[..n] + [rows[n]];
      OrderByRows(rows[..n], leq);
      InsertRowRows(OrderBy(rows[..n], leq), rows[n], leq);
    }
  }

  lemma SameRows<T(!new)>(rows: seq<T>, leq: (T, T) -> bool)
    ensures |OrderBy(rows, leq)| == |rows|
    ensures forall r :: r in OrderBy(rows, leq) <==> r in rows
  {
    OrderByRows(rows, leq);
    forall r ensures r in OrderBy(rows, leq) <==> r in rows {
      assert r in multiset(OrderBy(rows, leq)) <==> r in multiset(rows);
    }
    assert |multiset(OrderBy(rows, leq))| == |multiset(rows)|;
  }

  lemma {:induction false} InsertRowSorted<T(!new)>(rows: seq<T>, r: T, leq: (T, T) -> bool)
    requires IsOrder(leq) && IsSorted(rows, leq)
    ensures IsSorted(InsertRow(rows, r, leq), leq)
  {
    if rows != [] {
      var n := |rows| - 1;
      if !leq(rows[n], r) {
        InsertRowSorted(rows[..n], r, leq);
        InsertRowElements(rows[..n], r, leq);
        assert leq(r, rows[n]) && forall x :: x in rows[..n] ==> leq(x, rows[n]);
        AppendedSorted(InsertRow(rows[..n], r, leq), rows[n], leq);
      } else {
        assert forall x :: x in rows ==> x in rows[..n] || x == rows[n];
        AppendedSorted(rows, r, leq);
      }
    }
  }

  lemma InsertRowElements<T(!new)>(rows: seq<T>, r: T, leq: (T, T) -> bool)
    ensures forall x :: x in InsertRow(rows, r, leq) <==> x in rows || x == r
  {
    InsertRowRows(rows, r, leq);
    forall x ensures x in InsertRow(rows, r, leq) <==> x in rows || x == r {
      assert x in multiset(InsertRow(rows, r, leq)) <==> x in multiset(rows) + multiset{r};
    }
  }

  lemma AppendedSorted<T(!new)>(rows: seq<T>, last: T, leq: (T, T) -> bool)
    requires IsSorted(rows, leq) && forall x :: x in rows ==> leq(x, last)
    ensures IsSorted(rows + [last], leq)
  {
  }

  lemma {:induction false} OrderBySorted<T(!new)>(rows: seq<T>, leq: (T, T) -> bool)
    requires IsOrder(leq)
    ensures IsSorted(OrderBy(rows, leq), leq)
  {
    if rows != [] {
      OrderBySorted(rows[..|rows| - 1], leq);
      InsertRowSorted(OrderBy(rows[..|rows| - 1], leq), rows[|rows| - 1], leq);
    }
  }

  lemma {:induction false} InsertThenWhere<T(!new)>(rows: seq<T>, r: T, leq: (T, T) -> bool, p: T -> bool)
    requires IsOrder(leq) && IsSorted(rows, leq)
    ensures Where(InsertRow(rows, r, leq), p) == if p(r) then InsertRow(Where(rows, p), r, leq) else Where(rows, p)
  {
    if rows == [] {
      assert [r][..0] == [];
    } else {
      var n := |rows| - 1;
      if leq(rows[n], r) {
        assert (rows + [r])[..n + 1] == rows;
        LastMayPrecede(rows, r, leq, p);
      } else {
        InsertThenWhere(rows[..n], r, leq, p);
        var front := InsertRow(rows[..n], r, leq);
        assert (front + [rows[n]])[..|front|] == front;
        assert p(rows[n]) ==> (Where(rows[..n], p) + [rows[n]])[..|Where(rows[..n], p)|] == Where(rows[..n], p);
      }
    }
  }

  lemma LastMayPrecede<T(!new)>(rows: seq<T>, r: T, leq: (T, T) -> bool, p: T -> bool)
    requires IsOrder(leq) && IsSorted(rows, leq) && rows != [] && leq(rows[|rows| - 1], r)
    ensures InsertRow(Where(rows, p), r, leq) == Where(rows, p) + [r]
  {
    var kept := Where(rows, p);
    if kept != [] {
      var last := kept[|kept| - 1];
      assert last in kept;
      hide Where;
      var i :| 0 <= i < |rows| && rows[i] == last;
      assert leq(rows[i], rows[|rows| - 1]);
      assert leq(last, r);
      hide IsOrder, IsSorted;
    }
  }

  /** Filtering an ordered result and ordering a filtered one agree, row by row. */
  lemma {:induction false} OrderThenWhere<T(!new)>(rows: seq<T>, leq: (T, T) -> bool, p: T -> bool)
    requires IsOrder(leq)
    ensures Where(OrderBy(rows, leq), p) == OrderBy(Where(rows, p), leq)
  {
    if rows != [] {
      var n := |rows| - 1;
      OrderThenWhere(rows[..n], leq, p);
      OrderBySorted(rows[..n], leq);
      InsertThenWhere(OrderBy(rows[..n], leq), rows[n], leq, p);
      var kept := Where(rows[..n], p);
      assert p(rows[n]) ==> (kept + [rows[n]])[..|kept|] == kept;
    }
  }

  lemma WhereAppend<T(!new)>(front: seq<T>, last: T, p: T -> bool)
    ensures Where(front + [last], p) == if p(last) then Where(front, p) + [last] else Where(front, p)
  {
    assert (front + [last])[..|front|] == front;
  }

  lemma {:induction false} WhereAll<T(!new)>(rows: seq<T>, p: T -> bool)
    requires forall k :: 0 <= k < |rows| ==> p(rows[k])
    ensures Where(rows, p) == rows
  {
    if rows != [] {
      var n := |rows| - 1;
      assert forall k :: 0 <= k < n ==> rows[..n][k] == rows[k];
      WhereAll(rows[..n], p);
      assert rows == rows[..n] + [rows[n]];
    }
  }

  lemma {:induction false} WhereTogether<T(!new)>(a: seq<T>, b: seq<T>, p: T -> bool)
    ensures Where(a + b, p) == Where(a, p) + Where(b, p)
  {
    hide Where;
    if b == [] {
      assert a + b == a && Where(b, p) == [] by { WhereAll(b, p); }
    } else {
      var n := |b| - 1;
      assert a + b == a + b[..n] + [b[n]] && b == b[..n] + [b[n]];
      WhereTogether(a, b[..n], p);
      WhereAppend(a + b[..n], b[n], p);
      WhereAppend(b[..n], b[n], p);
    }
  }

  /** Two filters in a row are one filter. */
  lemma {:induction false} WhereTwice<T(!new)>(rows: seq<T>, p: T -> bool, q: T -> bool)
    requires forall r :: r in rows && q(r) ==> p(r)
    ensures Where(Where(rows, p), q) == Where(rows, q)
  {
    if rows != [] {
      var n := |rows| - 1;
      assert rows == rows[..n] + [rows[n]];
      WhereTwice(rows[..n], p, q);
      var kept := Where(rows[..n], p);
      assert p(rows[n]) ==> (kept + [rows[n]])[..|kept|] == kept;
    }
  }
}
