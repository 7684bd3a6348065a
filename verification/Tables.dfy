/** Search by key, as the primary keys of the tables answer it. */
module Tables {

  /** Position of the first row with this key, or the number of rows. */
  function Find<T>(rows: seq<T>, key: T -> string, id: string): (i: nat)
    ensures i <= |rows|
    ensures i < |rows| ==> key(rows[i]) == id
    ensures forall k | 0 <= k < i :: key(rows[k]) != id
  {
    if rows == [] then 0
    else if key(rows[0]) == id then 0
    else 1 + Find(rows[1..], key, id)
  }
}
