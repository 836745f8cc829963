/** Shared value types: optional columns, the outcome of a request, and sums over table rows. */
module Common {

  datatype Option<+T> = None | Some(value: T)

  /** The error classes the handlers raise; the text of the message is not modelled. */
  datatype Error = ValidationError | BusinessConflict | NotFound | PermissionDenied | IntegrityError

  datatype Result<+T> = Ok(value: T) | Err(error: Error)

  /** A UUID column. */
  type Uuid = nat

  /** A point in time, counted from any fixed origin in any fixed unit. */
  type Time = int

  /** An amount of money in the smallest unit. */
  type Money = int

  // ----- sums over rows, in table order -----

  function Sum<T>(rows: seq<T>, weight: T -> int): int
  {
    if rows == [] then 0 else Sum(rows[..|rows| - 1], weight) + weight(rows[|rows| - 1])
  }

  lemma SumAppend<T>(rows: seq<T>, row: T, weight: T -> int)
    ensures Sum(rows + [row], weight) == Sum(rows, weight) + weight(row)
  {
    assert (rows + [row])[..|rows|] == rows;
  }

  lemma {:induction false} SumUpdate<T>(rows: seq<T>, i: nat, row: T, weight: T -> int)
    requires i < |rows|
    ensures Sum(rows[i := row], weight) == Sum(rows, weight) - weight(rows[i]) + weight(row)
  {
    var n := |rows| - 1;
    if i == n {
      assert rows[i := row][..n] == rows[..n];
    } else {
      assert rows[i := row][..n] == rows[..n][i := row];
      SumUpdate(rows[..n], i, row, weight);
    }
  }

  /** Weights that agree on every row give the same sum. */
  lemma {:induction false} SumSame<T>(rows: seq<T>, f: T -> int, g: T -> int)
    requires forall row :: row in rows ==> f(row) == g(row)
    ensures Sum(rows, f) == Sum(rows, g)
  {
    if rows != [] {
      SumSame(rows[..|rows| - 1], f, g);
    }
  }

  /** A weight that is a sum of two weights splits the sum. */
  lemma {:induction false} SumSplit<T>(rows: seq<T>, whole: T -> int, f: T -> int, g: T -> int)
    requires forall row :: row in rows ==> whole(row) == f(row) + g(row)
    ensures Sum(rows, whole) == Sum(rows, f) + Sum(rows, g)
  {
    if rows != [] {
      SumSplit(rows[..|rows| - 1], whole, f, g);
    }
  }

  lemma {:induction false} SumNonNegative<T>(rows: seq<T>, weight: T -> int)
    requires forall row :: row in rows ==> weight(row) >= 0
    ensures Sum(rows, weight) >= 0
    ensures Sum(rows, weight) == 0 <==> forall row :: row in rows ==> weight(row) == 0
  {
    if rows != [] {
      var init := rows[..|rows| - 1];
      SumNonNegative(init, weight);
      assert rows == init + [rows[|rows| - 1]];
    }
  }
}
