/** Selections over rows in the way the SQL queries and Kotlin collection
    operations of the source use them: `WHERE` (Filter), `ORDER BY <date>`
    (SortBy), `ORDER BY <date> DESC LIMIT 1` (Latest) and `LIMIT n` (Take).
    Keys are compared with Kotlin's / SQLite's string order. */
module Query {
  import opened Common

  /** The rows that satisfy `keep`, in table order. */
  function Filter<T(!new)>(rows: seq<T>, keep: T -> bool): (r: seq<T>)
    ensures |r| <= |rows|
    ensures forall x :: x in r <==> x in rows && keep(x)
    ensures multiset(r) <= multiset(rows)
    ensures forall i :: 0 <= i < |r| ==> keep(r[i])
  {
    if |rows| == 0 then []
    else
      var rest := Filter(rows[..|rows| - 1], keep);
      assert rows == rows[..|rows| - 1] + [rows[|rows| - 1]];
      if keep(rows[|rows| - 1]) then rest + [rows[|rows| - 1]] else rest
  }

  /** A kept row is selected as often as it is stored. */
  lemma {:induction false} FilterCount<T(!new)>(rows: seq<T>, keep: T -> bool)
    ensures forall x :: keep(x) ==> multiset(Filter(rows, keep))[x] == multiset(rows)[x]
    decreases |rows|
  {
    if |rows| > 0 {
      var init := rows[..|rows| - 1];
      FilterCount(init, keep);
      assert rows == init + [rows[|rows| - 1]];
    }
  }

  lemma {:induction false} FilterAppend<T(!new)>(rows: seq<T>, x: T, keep: T -> bool)
    ensures Filter(rows + [x], keep) == if keep(x) then Filter(rows, keep) + [x] else Filter(rows, keep)
  {
    assert (rows + [x])[..|rows + [x]| - 1] == rows;
  }

  /** `Filter` seen from its last row. */
  lemma FilterLast<T(!new)>(rows: seq<T>, keep: T -> bool)
    requires |rows| > 0
    ensures Filter(rows, keep) == if keep(rows[|rows| - 1]) then Filter(rows[..|rows| - 1], keep) + [rows[|rows| - 1]]
                                  else Filter(rows[..|rows| - 1], keep)
  {
  }

  /** Filtering with a condition that every row meets keeps the rows. */
  lemma {:induction false} FilterAll<T(!new)>(rows: seq<T>, keep: T -> bool)
    requires forall i :: 0 <= i < |rows| ==> keep(rows[i])
    ensures Filter(rows, keep) == rows
    decreases |rows|
  {
    if |rows| > 0 {
      FilterAll(rows[..|rows| - 1], keep);
      assert rows == rows[..|rows| - 1] + [rows[|rows| - 1]];
    }
  }

  /** Filtering with a condition that no row meets selects nothing. */
  lemma {:induction false} FilterNone<T(!new)>(rows: seq<T>, keep: T -> bool)
    requires forall i :: 0 <= i < |rows| ==> !keep(rows[i])
    ensures Filter(rows, keep) == []
    decreases |rows|
  {
    if |rows| > 0 {
      FilterNone(rows[..|rows| - 1], keep);
    }
  }

  /** Two conditions that agree on every row select the same rows. */
  lemma {:induction false} FilterSame<T(!new)>(rows: seq<T>, p: T -> bool, q: T -> bool)
    requires forall i :: 0 <= i < |rows| ==> p(rows[i]) == q(rows[i])
    ensures Filter(rows, p) == Filter(rows, q)
    decreases |rows|
  {
    if |rows| > 0 {
      FilterSame(rows[..|rows| - 1], p, q);
    }
  }

  /** Every two rows, in table order, are related by `ok`. */
  ghost predicate Pairwise<T>(rows: seq<T>, ok: (T, T) -> bool) {
    forall i, j :: 0 <= i < j < |rows| ==> ok(rows[i], rows[j])
  }

  /** Dropping rows keeps a pairwise property. */
  lemma {:induction false} FilterPairwise<T(!new)>(rows: seq<T>, keep: T -> bool, ok: (T, T) -> bool)
    requires Pairwise(rows, ok)
    ensures Pairwise(Filter(rows, keep), ok)
    decreases |rows|
  {
    if |rows| > 0 {
      var init, last := rows[..|rows| - 1], rows[|rows| - 1];
      assert Pairwise(init, ok);
      FilterPairwise(init, keep, ok);
      var f := Filter(init, keep);
      forall i | 0 <= i < |f| ensures ok(f[i], last) {
        assert f[i] in init;
        var k :| 0 <= k < |init| && init[k] == f[i];
        assert rows[k] == f[i];
      }
    }
  }

  /** `a` may be placed before `b` in ascending (or descending) key order. */
  predicate InOrder(a: string, b: string, descending: bool) {
    if descending then StrLe(b, a) else StrLe(a, b)
  }

  ghost predicate SortedBy<T>(rows: seq<T>, key: T -> string, descending: bool) {
    forall i, j :: 0 <= i < j < |rows| ==> InOrder(key(rows[i]), key(rows[j]), descending)
  }

  lemma InOrderTotal(a: string, b: string, descending: bool)
    ensures InOrder(a, b, descending) || InOrder(b, a, descending)
  {
    StrLeTotal(a, b);
  }

  lemma InOrderTransitive(a: string, b: string, c: string, descending: bool)
    requires InOrder(a, b, descending) && InOrder(b, c, descending)
    ensures InOrder(a, c, descending)
  {
    if descending { StrLeTransitive(c, b, a); } else { StrLeTransitive(a, b, c); }
  }

  /** Puts `x` before the first row it may precede; sorted input stays sorted. */
  function Insert<T>(x: T, rows: seq<T>, key: T -> string, descending: bool): (r: seq<T>)
    requires SortedBy(rows, key, descending)
    ensures SortedBy(r, key, descending)
    ensures multiset(r) == multiset(rows) + multiset{x}
    ensures |r| == |rows| + 1
  {
    if |rows| == 0 then [x]
    else if InOrder(key(x), key(rows[0]), descending) then
      InsertBefore(x, rows, key, descending);
      [x] + rows
    else
      var rest := Insert(x, rows[1..], key, descending);
      InsertAfter(x, rows, rest, key, descending);
      [rows[0]] + rest
  }

  /** `x` may go first when it may precede the first row. */
  lemma InsertBefore<T>(x: T, rows: seq<T>, key: T -> string, descending: bool)
    requires SortedBy(rows, key, descending)
    requires |rows| > 0 && InOrder(key(x), key(rows[0]), descending)
    ensures SortedBy([x] + rows, key, descending)
  {
    forall j | 0 < j < |rows| ensures InOrder(key(x), key(rows[j]), descending) {
      InOrderTransitive(key(x), key(rows[0]), key(rows[j]), descending);
    }
    var r := [x] + rows;
    forall i, j | 0 <= i < j < |r| ensures InOrder(key(r[i]), key(r[j]), descending) {
      if i > 0 {
        assert r[i] == rows[i - 1] && r[j] == rows[j - 1];
      }
    }
  }

  /** The first row stays first when `x` goes into the rest. */
  lemma InsertAfter<T>(x: T, rows: seq<T>, rest: seq<T>, key: T -> string, descending: bool)
    requires SortedBy(rows, key, descending)
    requires |rows| > 0 && !InOrder(key(x), key(rows[0]), descending)
    requires SortedBy(rest, key, descending)
    requires multiset(rest) == multiset(rows[1..]) + multiset{x}
    ensures SortedBy([rows[0]] + rest, key, descending)
    ensures multiset([rows[0]] + rest) == multiset(rows) + multiset{x}
  {
    InOrderTotal(key(x), key(rows[0]), descending);
    assert rows == [rows[0]] + rows[1..];
    forall j | 0 <= j < |rest| ensures InOrder(key(rows[0]), key(rest[j]), descending) {
      assert rest[j] in multiset(rest);
      if rest[j] != x {
        assert rest[j] in multiset(rows[1..]);
        var k :| 0 <= k < |rows[1..]| && rows[1..][k] == rest[j];
        assert rows[k + 1] == rest[j];
      }
    }
    var r := [rows[0]] + rest;
    forall i, j | 0 <= i < j < |r| ensures InOrder(key(r[i]), key(r[j]), descending) {
      if i > 0 {
        assert r[i] == rest[i - 1] && r[j] == rest[j - 1];
      }
    }
  }

  /** A stable insertion sort: Kotlin's `sortedBy` / `sortedByDescending`,
      and one of the orders SQLite may produce for `ORDER BY`. */
  function SortBy<T>(rows: seq<T>, key: T -> string, descending: bool): (r: seq<T>)
    ensures SortedBy(r, key, descending)
    ensures multiset(r) == multiset(rows)
    ensures |r| == |rows|
  {
    if |rows| == 0 then []
    else
      assert rows == [rows[0]] + rows[1..];
      Insert(rows[0], SortBy(rows[1..], key, descending), key, descending)
  }

  /** Sorting keeps exactly the rows it was given. */
  lemma SortByMembers<T(!new)>(rows: seq<T>, key: T -> string, descending: bool)
    ensures forall x :: x in SortBy(rows, key, descending) <==> x in rows
  {
    var r := SortBy(rows, key, descending);
    forall x ensures x in r <==> x in rows {
      assert x in r <==> x in multiset(r);
      assert x in rows <==> x in multiset(rows);
    }
  }

  /** `ORDER BY key DESC LIMIT 1`: a row with the greatest key, or none. */
  function Latest<T(!new)>(rows: seq<T>, key: T -> string): (r: Option<T>)
    ensures r.None? <==> |rows| == 0
    ensures r.Some? ==> r.value in rows
    ensures r.Some? ==> forall x :: x in rows ==> StrLe(key(x), key(r.value))
  {
    if |rows| == 0 then None
    else
      var rest := Latest(rows[1..], key);
      assert forall x :: x in rows ==> x == rows[0] || x in rows[1..];
      if rest.None? then
        StrLeReflexive(key(rows[0]));
        Some(rows[0])
      else if StrLe(key(rest.value), key(rows[0])) then
        assert forall x :: x in rows[1..] ==> StrLe(key(x), key(rows[0])) by {
          forall x | x in rows[1..] ensures StrLe(key(x), key(rows[0])) {
            StrLeTransitive(key(x), key(rest.value), key(rows[0]));
          }
        }
        StrLeReflexive(key(rows[0]));
        Some(rows[0])
      else
        StrLeTotal(key(rest.value), key(rows[0]));
        Some(rest.value)
  }

  /** A prefix holds each row no more often than the whole. */
  lemma TakeMultiset<T>(rows: seq<T>, limit: int)
    ensures multiset(Take(rows, limit)) <= multiset(rows)
  {
    var r := Take(rows, limit);
    assert rows == r + rows[|r|..];
  }

  /** A prefix of a sorted sequence holds rows that may precede every row
      left out. */
  lemma TakeSortedKeepsFirst<T>(sorted: seq<T>, key: T -> string, descending: bool, limit: int)
    requires SortedBy(sorted, key, descending)
    ensures SortedBy(Take(sorted, limit), key, descending)
    ensures forall x, y :: x in sorted && x !in Take(sorted, limit) && y in Take(sorted, limit) ==>
                             InOrder(key(y), key(x), descending)
  {
    var r := Take(sorted, limit);
    forall x, y | x in sorted && x !in r && y in r ensures InOrder(key(y), key(x), descending) {
      var k :| 0 <= k < |sorted| && sorted[k] == x;
      var j :| 0 <= j < |r| && r[j] == y;
      assert r == sorted[..|r|];
      assert sorted[j] == y;
      assert k >= |r|;
    }
  }

  /** `LIMIT n`; SQLite reads a negative limit as "no limit". */
  function Take<T>(rows: seq<T>, limit: int): (r: seq<T>)
    ensures limit >= 0 ==> |r| == if limit < |rows| then limit else |rows|
    ensures limit < 0 ==> r == rows
    ensures r <= rows
  {
    if limit < 0 || limit >= |rows| then rows else rows[..limit]
  }
}
