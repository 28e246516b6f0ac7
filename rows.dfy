/** Searching and removing rows of a table held as a sequence. */
module Rows {
  import opened Wrappers

  /** Index of the first row satisfying a condition (a WHERE clause). */
  function FindIndex<T>(rows: seq<T>, matches: T -> bool): (r: Option<nat>)
    ensures r.Some? ==> r.value < |rows| && matches(rows[r.value])
    ensures r.None? <==> forall j :: 0 <= j < |rows| ==> !matches(rows[j])
    decreases |rows|
  {
    if rows == [] then None
    else if matches(rows[0]) then Some(0)
    else
      var rest := FindIndex(rows[1..], matches);
      assert forall j :: 1 <= j < |rows| ==> rows[j] == rows[1..][j - 1];
      match rest
      case None => None
      case Some(k) => Some(k + 1)
  }

  /** The table without row i; the others keep their order. */
  function RemoveAt<T>(rows: seq<T>, i: nat): (r: seq<T>)
    requires i < |rows|
    ensures |r| == |rows| - 1
    ensures forall j :: 0 <= j < |r| ==> r[j] == if j < i then rows[j] else rows[j + 1]
  {
    rows[..i] + rows[i + 1..]
  }
}
