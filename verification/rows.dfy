/** Table rows and the ids the database assigns to new ones. */
module Rows {

  /** An id larger than every id in the table: the model of an auto-increment
      key, which never reuses an id. */
  function FreshId<T>(rows: seq<T>, id: T -> int): (r: int)
    ensures r >= 1
    ensures forall i :: 0 <= i < |rows| ==> id(rows[i]) < r
  {
    if |rows| == 0 then 1
    else
      var rest := FreshId(rows[..|rows| - 1], id);
      var last := id(rows[|rows| - 1]);
      assert forall i :: 0 <= i < |rows| - 1 ==> rows[i] == rows[..|rows| - 1][i];
      if last < rest then rest else last + 1
  }

  /** No two rows of the table share an id. */
  predicate UniqueIds<T>(rows: seq<T>, id: T -> int) {
    forall i, j :: 0 <= i < j < |rows| ==> id(rows[i]) != id(rows[j])
  }
}
