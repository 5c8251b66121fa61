/**
  Sums over the rows of a table. A table is a finite map, so the sum is defined by removing
  an arbitrary key; `TotalUpdate` says how one row write moves it.
 */
module MapSum {

  ghost function Sum<K(!new)>(m: map<K, int>): int
  {
    if m == map[] then 0
    else
      var k :| k in m;
      m[k] + Sum(m - {k})
  }

  lemma {:induction false} SumMinus<K(!new)>(m: map<K, int>, k: K)
    requires k in m
    ensures Sum(m) == m[k] + Sum(m - {k})
    decreases |m|
  {
    var j :| j in m && Sum(m) == m[j] + Sum(m - {j});
    if j != k {
      SumMinus(m - {j}, k);
      SumMinus(m - {k}, j);
      assert m - {j} - {k} == m - {k} - {j};
    }
  }

  /** The sum of a weight over all rows. */
  ghost function Total<K(!new), V(!new)>(rows: map<K, V>, weight: V -> int): int
  {
    Sum(map k | k in rows :: weight(rows[k]))
  }

  /** Writing one row moves the total by the difference of that row's weights. */
  lemma TotalUpdate<K(!new), V(!new)>(rows: map<K, V>, weight: V -> int, k: K, v: V)
    ensures Total(rows[k := v], weight)
         == Total(rows, weight) + weight(v) - (if k in rows then weight(rows[k]) else 0)
  {
    var before := map j | j in rows :: weight(rows[j]);
    var rows' := rows[k := v];
    var after := map j | j in rows' :: weight(rows'[j]);
    SumMinus(after, k);
    assert after - {k} == before - {k};
    if k in rows {
      SumMinus(before, k);
    } else {
      assert before - {k} == before;
    }
  }

  /** Rows of non-negative weight have a non-negative total, and no row outweighs it. */
  lemma {:induction false} TotalBounds<K(!new), V(!new)>(rows: map<K, V>, weight: V -> int)
    requires forall k :: k in rows ==> weight(rows[k]) >= 0
    ensures Total(rows, weight) >= 0
    ensures forall k :: k in rows ==> weight(rows[k]) <= Total(rows, weight)
    decreases |rows|
  {
    var w := map j | j in rows :: weight(rows[j]);
    forall k | k in rows
      ensures 0 <= weight(rows[k]) <= Total(rows, weight)
    {
      SumMinus(w, k);
      assert w - {k} == map j | j in rows - {k} :: weight((rows - {k})[j]);
      TotalBounds(rows - {k}, weight);
    }
    if rows == map[] {
      assert w == map[];
    } else {
      var k :| k in rows;
      assert weight(rows[k]) <= Total(rows, weight);
    }
  }

  lemma {:induction false} SumZero<K(!new)>(m: map<K, int>)
    requires forall k :: k in m ==> m[k] == 0
    ensures Sum(m) == 0
    decreases |m|
  {
    if m != map[] {
      var k :| k in m;
      SumMinus(m, k);
      SumZero(m - {k});
    }
  }

  lemma TotalZero<K(!new), V(!new)>(rows: map<K, V>, weight: V -> int)
    requires forall k :: k in rows ==> weight(rows[k]) == 0
    ensures Total(rows, weight) == 0
  {
    SumZero(map k | k in rows :: weight(rows[k]));
  }
}
