/**
 * The lookup both PostgreSQL tables answer `findUnique` with: the first
 * row a condition on one column accepts. On a column the table keeps
 * unique, that is the one row holding the value.
 */
module Lookup {
  import opened Wrappers

  /** The first row `matches` accepts, or nothing when no row does. */
  function FindFirst<T>(rows: seq<T>, matches: T -> bool): (r: Option<T>)
    ensures r.Some? ==> r.value in rows && matches(r.value)
    ensures r.None? ==> forall i :: 0 <= i < |rows| ==> !matches(rows[i])
    decreases |rows|
  {
    if rows == [] then None
    else if matches(rows[0]) then Some(rows[0])
    else FindFirst(rows[1..], matches)
  }
}
