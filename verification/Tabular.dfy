/** How SQL turns a table into a result: a scan in row order, a WHERE filter, an ORDER BY. */
module Tabular {

  /** The rows of a table in row-id order, for ids up to n. */
  function Scan<T>(m: map<int, T>, n: nat): seq<T> {
    if n == 0 then [] else Scan(m, n - 1) + if n in m then [m[n]] else []
  }

  function Filter<T>(rows: seq<T>, keep: T -> bool): seq<T> {
    if rows == [] then []
    else (if keep(rows[0]) then [rows[0]] else []) + Filter(rows[1..], keep)
  }

  function Insert<T>(x: T, rows: seq<T>, before: (T, T) -> bool): seq<T> {
    if rows == [] || before(x, rows[0]) then [x] + rows
    else [rows[0]] + Insert(x, rows[1..], before)
  }

  function OrderBy<T>(rows: seq<T>, before: (T, T) -> bool): seq<T> {
    if rows == [] then [] else Insert(rows[0], OrderBy(rows[1..], before), before)
  }

  ghost predicate Transitive<T(!new)>(before: (T, T) -> bool) {
    forall x, y, z :: before(x, y) && before(y, z) ==> before(x, z)
  }

  /** Of two different rows one comes first. */
  ghost predicate Decides<T>(before: (T, T) -> bool, rows: seq<T>) {
    forall i, j | 0 <= i < j < |rows| :: before(rows[i], rows[j]) || before(rows[j], rows[i])
  }

  ghost predicate Ordered<T>(before: (T, T) -> bool, rows: seq<T>) {
    forall i, j | 0 <= i < j < |rows| :: before(rows[i], rows[j])
  }

  lemma {:induction false} InsertKeepsRows<T>(x: T, rows: seq<T>, before: (T, T) -> bool)
    ensures multiset(Insert(x, rows, before)) == multiset{x} + multiset(rows)
  {
    if rows != [] && !before(x, rows[0]) {
      InsertKeepsRows(x, rows[1..], before);
      assert rows == [rows[0]] + rows[1..];
    }
  }

  /** Ordering permutes the rows. */
  lemma {:induction false} OrderByPermutes<T>(rows: seq<T>, before: (T, T) -> bool)
    ensures multiset(OrderBy(rows, before)) == multiset(rows)
    ensures |OrderBy(rows, before)| == |rows|
  {
    if rows != [] {
      OrderByPermutes(rows[1..], before);
      InsertKeepsRows(rows[0], OrderBy(rows[1..], before), before);
      assert rows == [rows[0]] + rows[1..];
    }
    assert |multiset(OrderBy(rows, before))| == |OrderBy(rows, before)|;
    assert |multiset(rows)| == |rows|;
  }

  lemma SameElements<T>(a: seq<T>, b: seq<T>, x: T)
    requires multiset(a) == multiset(b)
    ensures x in a <==> x in b
  {
    assert x in a <==> x in multiset(a);
    assert x in b <==> x in multiset(b);
  }

  lemma {:induction false} InsertOrders<T(!new)>(x: T, rows: seq<T>, before: (T, T) -> bool)
    requires Transitive(before) && Ordered(before, rows)
    requires forall y | y in rows :: before(x, y) || before(y, x)
    ensures Ordered(before, Insert(x, rows, before))
  {
    if rows != [] && !before(x, rows[0]) {
      InsertOrders(x, rows[1..], before);
      var tail := Insert(x, rows[1..], before);
      InsertKeepsRows(x, rows[1..], before);
      forall k | 0 <= k < |tail|
        ensures before(rows[0], tail[k])
      {
        SameElements(tail, [x] + rows[1..], tail[k]);
        if tail[k] != x {
          var i :| 0 <= i < |rows[1..]| && rows[1..][i] == tail[k];
          assert before(rows[0], rows[i + 1]);
        } else {
          assert rows[0] in rows;
        }
      }
    } else if rows != [] {
      forall k | 0 <= k < |rows|
        ensures before(x, rows[k])
      {
        assert k > 0 ==> before(rows[0], rows[k]);
      }
    }
  }

  /** When the order decides every pair, the result is in order. */
  lemma {:induction false} OrderByOrders<T(!new)>(rows: seq<T>, before: (T, T) -> bool)
    requires Transitive(before) && Decides(before, rows)
    ensures Ordered(before, OrderBy(rows, before))
  {
    if rows != [] {
      var tail := rows[1..];
      OrderByOrders(tail, before);
      OrderByPermutes(tail, before);
      forall y | y in OrderBy(tail, before)
        ensures before(rows[0], y) || before(y, rows[0])
      {
        SameElements(OrderBy(tail, before), tail, y);
        var i :| 0 <= i < |tail| && tail[i] == y;
        assert rows[i + 1] == y;
      }
      InsertOrders(rows[0], OrderBy(tail, before), before);
    }
  }

  lemma {:induction false} FilterKeeps<T>(rows: seq<T>, keep: T -> bool)
    ensures forall x :: x in Filter(rows, keep) <==> x in rows && keep(x)
    ensures |Filter(rows, keep)| <= |rows|
  {
    if rows != [] {
      FilterKeeps(rows[1..], keep);
    }
  }

  lemma {:induction false} FilterSame<T>(rows: seq<T>, p: T -> bool, q: T -> bool)
    requires forall x | x in rows :: p(x) == q(x)
    ensures Filter(rows, p) == Filter(rows, q)
  {
    if rows != [] {
      assert rows[0] in rows;
      FilterSame(rows[1..], p, q);
    }
  }

  lemma {:induction false} FilterFrom<T>(rows: seq<T>, keep: T -> bool, k: nat) returns (i: nat)
    requires k < |Filter(rows, keep)|
    ensures i < |rows| && rows[i] == Filter(rows, keep)[k]
  {
    var first := if keep(rows[0]) then 1 else 0;
    if k < first {
      i := 0;
    } else {
      i := FilterFrom(rows[1..], keep, k - first);
      i := i + 1;
    }
  }

  lemma {:induction false} FilterDecides<T>(rows: seq<T>, keep: T -> bool, before: (T, T) -> bool)
    requires Decides(before, rows)
    ensures Decides(before, Filter(rows, keep))
  {
    if rows != [] {
      var tail := rows[1..];
      assert forall i, j | 0 <= i < j < |tail| :: tail[i] == rows[i + 1] && tail[j] == rows[j + 1];
      FilterDecides(tail, keep, before);
      var rest := Filter(tail, keep);
      forall k | 0 <= k < |rest|
        ensures before(rows[0], rest[k]) || before(rest[k], rows[0])
      {
        var i := FilterFrom(tail, keep, k);
        assert rows[i + 1] == rest[k];
      }
    }
  }
}
