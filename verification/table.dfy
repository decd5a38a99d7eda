/** A database table as the query builder sees it: rows in storage order, read with
    `select("*").eq(column, value)`. */
module Table {

  /** `select * where key = k`: the matching rows, in storage order. */
  function Where<R, K(==)>(rows: seq<R>, key: R -> K, k: K): (r: seq<R>)
    ensures |r| <= |rows|
    ensures forall x :: x in r ==> x in rows && key(x) == k
    ensures forall i :: 0 <= i < |rows| && key(rows[i]) == k ==> rows[i] in r
  {
    if rows == [] then []
    else (if key(rows[0]) == k then [rows[0]] else []) + Where(rows[1..], key, k)
  }

  /** Reference definition of "the first matching row": the index a left-to-right scan
      stops at, or `|rows|` when nothing matches. */
  function FirstMatch<R, K(==)>(rows: seq<R>, key: R -> K, k: K): (i: nat)
    ensures i <= |rows|
    ensures forall j :: 0 <= j < i ==> key(rows[j]) != k
    ensures i < |rows| ==> key(rows[i]) == k
  {
    if rows == [] then 0
    else if key(rows[0]) == k then 0
    else 1 + FirstMatch(rows[1..], key, k)
  }

  /** No two rows share a key value. */
  predicate KeysUnique<R, K(==)>(rows: seq<R>, key: R -> K) {
    forall i, j :: 0 <= i < j < |rows| ==> key(rows[i]) != key(rows[j])
  }

  /** `result.data[0]` of the filtered query is the row a left-to-right scan finds first,
      and the query is empty exactly when the scan finds nothing. */
  lemma {:induction false} WhereHeadIsFirstMatch<R, K>(rows: seq<R>, key: R -> K, k: K)
    ensures Where(rows, key, k) == [] <==> FirstMatch(rows, key, k) == |rows|
    ensures Where(rows, key, k) != [] ==> Where(rows, key, k)[0] == rows[FirstMatch(rows, key, k)]
  {
    if rows != [] && key(rows[0]) != k {
      WhereHeadIsFirstMatch(rows[1..], key, k);
    }
  }

  /** Appending a row extends the query result by that row exactly when it matches. */
  lemma {:induction false} WhereAppend<R, K>(rows: seq<R>, x: R, key: R -> K, k: K)
    ensures Where(rows + [x], key, k) == Where(rows, key, k) + (if key(x) == k then [x] else [])
  {
    if rows == [] {
      assert rows + [x] == [x];
    } else {
      assert (rows + [x])[1..] == rows[1..] + [x];
      WhereAppend(rows[1..], x, key, k);
    }
  }

  /** A query that no row matches is empty. */
  lemma {:induction false} NoMatchIsEmpty<R, K>(rows: seq<R>, key: R -> K, k: K)
    requires forall j :: 0 <= j < |rows| ==> key(rows[j]) != k
    ensures Where(rows, key, k) == []
  {
    if rows != [] {
      NoMatchIsEmpty(rows[1..], key, k);
    }
  }

  /** A table whose keys are unique answers every equality query with at most one row. */
  lemma {:induction false} UniqueKeysAtMostOne<R, K>(rows: seq<R>, key: R -> K, k: K)
    requires KeysUnique(rows, key)
    ensures |Where(rows, key, k)| <= 1
  {
    if rows != [] {
      var tail := rows[1..];
      assert KeysUnique(tail, key) by {
        forall i, j | 0 <= i < j < |tail| ensures key(tail[i]) != key(tail[j]) {
          assert tail[i] == rows[i + 1] && tail[j] == rows[j + 1];
        }
      }
      UniqueKeysAtMostOne(tail, key, k);
      if key(rows[0]) == k {
        forall j | 0 <= j < |tail| ensures key(tail[j]) != k {
          assert tail[j] == rows[j + 1];
        }
        NoMatchIsEmpty(tail, key, k);
      }
    }
  }

  /** Appending a row whose key is not yet present keeps unique keys unique. */
  lemma AppendFreshKeepsUnique<R, K>(rows: seq<R>, x: R, key: R -> K)
    requires Where(rows, key, key(x)) == []
    ensures KeysUnique(rows, key) ==> KeysUnique(rows + [x], key)
  {
    if !KeysUnique(rows, key) {
      return;
    }
    var t := rows + [x];
    forall i, j | 0 <= i < j < |t| ensures key(t[i]) != key(t[j]) {
      if j == |rows| {
        assert t[i] == rows[i];
      } else {
        assert t[i] == rows[i] && t[j] == rows[j];
      }
    }
  }
}
