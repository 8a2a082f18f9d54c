/**
 * The step every repository query shares: a WHERE clause keeps a table row or
 * drops it, and the kept rows come back as often as the table holds them.
 */
module Filters {

  /**
   * Keeping or dropping the head `h` in front of `rest`, the result of filtering
   * `tail`, counts a matching value `y` as often as `[h] + tail` holds it.
   */
  lemma FilterCount<T>(h: T, tail: seq<T>, rest: seq<T>, keep: bool, y: T)
    requires forall k :: 0 <= k < |rest| ==> rest[k] in tail
    requires y in tail ==> multiset(rest)[y] == multiset(tail)[y]
    requires y == h ==> keep
    ensures multiset(if keep then [h] + rest else rest)[y] == multiset([h] + tail)[y]
  {
    if y !in tail {
      assert y !in rest;
    }
  }

  /**
   * One step of a filter over `rows`: keeping or dropping the head in front of
   * `rest`, the filtered tail, counts every wanted row as often as `rows` does.
   */
  lemma FilterStep<T>(rows: seq<T>, rest: seq<T>, keep: bool, wanted: set<T>)
    requires rows != []
    requires forall k :: 0 <= k < |rest| ==> rest[k] in rows[1..]
    requires forall y | y in rows[1..] && y in wanted :: multiset(rest)[y] == multiset(rows[1..])[y]
    requires rows[0] in wanted ==> keep
    ensures forall y | y in rows && y in wanted ::
              multiset(if keep then [rows[0]] + rest else rest)[y] == multiset(rows)[y]
  {
    assert rows == [rows[0]] + rows[1..];
    forall y | y in rows && y in wanted
      ensures multiset(if keep then [rows[0]] + rest else rest)[y] == multiset(rows)[y]
    {
      FilterCount(rows[0], rows[1..], rest, keep, y);
    }
  }
}
