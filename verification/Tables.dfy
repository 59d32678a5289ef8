/** Rows of a table, summed with a weight, as SELECT SUM(...) WHERE ... does. */
module Tables {

  datatype Option<+T> = None | Some(value: T)

  function SumBy<T>(rows: seq<T>, weight: T -> int): int {
    if rows == [] then 0 else SumBy(rows[..|rows| - 1], weight) + weight(rows[|rows| - 1])
  }

  lemma SumAppend<T>(rows: seq<T>, row: T, weight: T -> int)
    ensures SumBy(rows + [row], weight) == SumBy(rows, weight) + weight(row)
  {}

  lemma {:induction false} SumConcat<T>(left: seq<T>, right: seq<T>, weight: T -> int)
    ensures SumBy(left + right, weight) == SumBy(left, weight) + SumBy(right, weight)
    decreases |right|
  {
    if right == [] {
      assert left + right == left;
    } else {
      var n := |right| - 1;
      assert (left + right)[..|left + right| - 1] == left + right[..n];
      SumConcat(left, right[..n], weight);
    }
  }

  /** Two tables whose rows weigh the same, position by position, have the same sum. */
  lemma {:induction false} SumSame<T>(a: seq<T>, b: seq<T>, weight: T -> int)
    requires |a| == |b|
    requires forall i | 0 <= i < |a| :: weight(a[i]) == weight(b[i])
    ensures SumBy(a, weight) == SumBy(b, weight)
    decreases |a|
  {
    if a != [] {
      var n := |a| - 1;
      SumSame(a[..n], b[..n], weight);
    }
  }

  /** Changing the weight of one row moves the sum by exactly that change. */
  lemma {:induction false} SumChangeOne<T>(a: seq<T>, b: seq<T>, j: nat, weight: T -> int)
    requires |a| == |b| && j < |a|
    requires forall i | 0 <= i < |a| && i != j :: weight(a[i]) == weight(b[i])
    ensures SumBy(b, weight) == SumBy(a, weight) - weight(a[j]) + weight(b[j])
    decreases |a|
  {
    var n := |a| - 1;
    if j == n {
      SumSame(a[..n], b[..n], weight);
    } else {
      SumChangeOne(a[..n], b[..n], j, weight);
    }
  }

  /** One row alone carries weight. */
  lemma {:induction false} SumSingle<T>(rows: seq<T>, j: nat, weight: T -> int)
    requires j < |rows|
    requires forall i | 0 <= i < |rows| && i != j :: weight(rows[i]) == 0
    ensures SumBy(rows, weight) == weight(rows[j])
    decreases |rows|
  {
    var n := |rows| - 1;
    if j == n {
      SumZero(rows[..n], weight);
    } else {
      SumSingle(rows[..n], j, weight);
    }
  }

  lemma {:induction false} SumZero<T>(rows: seq<T>, weight: T -> int)
    requires forall i | 0 <= i < |rows| :: weight(rows[i]) == 0
    ensures SumBy(rows, weight) == 0
    decreases |rows|
  {
    if rows != [] {
      SumZero(rows[..|rows| - 1], weight);
    }
  }

  /** A weight that is pointwise larger gives a larger sum. */
  lemma {:induction false} SumMonotone<T>(rows: seq<T>, low: T -> int, high: T -> int)
    requires forall i | 0 <= i < |rows| :: low(rows[i]) <= high(rows[i])
    ensures SumBy(rows, low) <= SumBy(rows, high)
    decreases |rows|
  {
    if rows != [] {
      SumMonotone(rows[..|rows| - 1], low, high);
    }
  }

  /** Rows that only lose weight lower the sum. */
  lemma {:induction false} SumBelow<T>(low: seq<T>, high: seq<T>, weight: T -> int)
    requires |low| == |high|
    requires forall i | 0 <= i < |low| :: weight(low[i]) <= weight(high[i])
    ensures SumBy(low, weight) <= SumBy(high, weight)
    decreases |low|
  {
    if low != [] {
      SumBelow(low[..|low| - 1], high[..|high| - 1], weight);
    }
  }

  lemma {:induction false} SumEqualWeights<T>(rows: seq<T>, f: T -> int, g: T -> int)
    requires forall i | 0 <= i < |rows| :: f(rows[i]) == g(rows[i])
    ensures SumBy(rows, f) == SumBy(rows, g)
    decreases |rows|
  {
    if rows != [] {
      SumEqualWeights(rows[..|rows| - 1], f, g);
    }
  }

  lemma {:induction false} SumNonNegative<T>(rows: seq<T>, weight: T -> int)
    requires forall i | 0 <= i < |rows| :: weight(rows[i]) >= 0
    ensures SumBy(rows, weight) >= 0
    decreases |rows|
  {
    if rows != [] {
      SumNonNegative(rows[..|rows| - 1], weight);
    }
  }

  lemma {:induction false} SumIsZeroExactly<T>(rows: seq<T>, weight: T -> int)
    requires forall row | row in rows :: weight(row) >= 0
    ensures SumBy(rows, weight) == 0 <==> forall row | row in rows :: weight(row) == 0
    decreases |rows|
  {
    if rows != [] {
      var n := |rows| - 1;
      SumNonNegative(rows[..n], weight);
      SumIsZeroExactly(rows[..n], weight);
      assert forall row | row in rows :: row in rows[..n] || row == rows[n];
    }
  }

  lemma {:induction false} SubsetIsSmaller<T>(a: set<T>, b: set<T>)
    requires a <= b
    ensures |a| <= |b|
    decreases |b|
  {
    if x :| x in a {
      SubsetIsSmaller(a - {x}, b - {x});
    }
  }
}
