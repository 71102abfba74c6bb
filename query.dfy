/**
 * `SELECT ... ORDER BY key [ASC|DESC]` over a table held as a set: the rows
 * come back in an order sorted by the key, rows with equal keys in an
 * unspecified order (SQL does not fix one). `queryOne` without an ORDER BY
 * returns some matching row, which `SelectKey` leaves unspecified in the same way.
 */
module Query {
  import opened Wrappers

  /** `x` may be listed before `y`. */
  predicate Before<T>(key: T -> int, descending: bool, x: T, y: T) {
    if descending then key(x) >= key(y) else key(x) <= key(y)
  }

  /** The key never goes against the requested direction along `r`. */
  predicate Ordered<T>(r: seq<T>, key: T -> int, descending: bool) {
    forall i, j :: 0 <= i < j < |r| ==> Before(key, descending, r[i], r[j])
  }

  /** A non-empty finite table has a row that may come first. */
  lemma {:induction false} FirstRow<T>(rows: set<T>, key: T -> int, descending: bool) returns (x: T)
    requires rows != {}
    ensures x in rows
    ensures forall y :: y in rows ==> Before(key, descending, x, y)
    decreases |rows|
  {
    var z :| z in rows;
    if rows == {z} {
      x := z;
    } else {
      var w := FirstRow(rows - {z}, key, descending);
      if Before(key, descending, w, z) {
        x := w;
      } else {
        x := z;
        forall y | y in rows ensures Before(key, descending, z, y) {
          if y != z {
            assert Before(key, descending, w, y);
          }
        }
      }
    }
  }

  /** The rows of `rows`, each once, sorted by `key`. */
  method OrderBy<T(==)>(rows: set<T>, key: T -> int, descending: bool) returns (r: seq<T>)
    ensures |r| == |rows|
    ensures forall x :: x in r <==> x in rows
    ensures Ordered(r, key, descending)
  {
    var remaining := rows;
    r := [];
    while remaining != {}
      invariant remaining <= rows
      invariant forall x :: x in r <==> x in rows && x !in remaining
      invariant |r| + |remaining| == |rows|
      invariant Ordered(r, key, descending)
      invariant forall i, y :: 0 <= i < |r| && y in remaining ==> Before(key, descending, r[i], y)
      decreases |remaining|
    {
      ghost var first := FirstRow(remaining, key, descending);
      var x :| x in remaining && forall y :: y in remaining ==> Before(key, descending, x, y);
      r := r + [x];
      remaining := remaining - {x};
    }
  }

  /** `queryOne`: the key of some row satisfying `p`, `None` when no row does. */
  method SelectKey<K, V>(table: map<K, V>, p: V -> bool) returns (r: Option<K>)
    ensures r.None? <==> forall k :: k in table ==> !p(table[k])
    ensures r.Some? ==> r.value in table && p(table[r.value])
  {
    if exists k :: k in table && p(table[k]) {
      var k :| k in table && p(table[k]);
      r := Some(k);
    } else {
      r := None;
    }
  }
}
