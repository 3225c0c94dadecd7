/**
 * The ORM's table operations, on a table held as a sequence of rows in
 * storage order: `findFirst`/`findUnique` return the first row a filter
 * accepts, `delete` removes one row.
 */
module Store {
  import opened Envelope

  /** `k` is the position of the first row of `table` that `p` accepts. */
  ghost predicate IsFirst<T>(table: seq<T>, p: T -> bool, k: int)
  {
    0 <= k < |table| && p(table[k]) && forall j :: 0 <= j < k ==> !p(table[j])
  }

  /** The position of the first row accepted by `p`, or None when no row is. */
  function FirstIndex<T>(table: seq<T>, p: T -> bool): (r: Option<nat>)
    ensures r.None? <==> forall i :: 0 <= i < |table| ==> !p(table[i])
    ensures r.Some? ==> IsFirst(table, p, r.value)
  {
    if |table| == 0 then None
    else if p(table[0]) then Some(0)
    else match FirstIndex(table[1..], p)
      case None => None
      case Some(k) => Some(k + 1)
  }

  /** The table without its row at position `k`; the other rows keep their order. */
  function RemoveAt<T>(table: seq<T>, k: nat): (r: seq<T>)
    requires k < |table|
    ensures |r| == |table| - 1
    ensures forall i :: 0 <= i < k ==> r[i] == table[i]
    ensures forall i :: k <= i < |r| ==> r[i] == table[i + 1]
    ensures multiset(r) + multiset{table[k]} == multiset(table)
  {
    assert table == table[..k] + [table[k]] + table[k + 1..];
    table[..k] + table[k + 1..]
  }
}
