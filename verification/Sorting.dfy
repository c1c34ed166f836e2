/** Sorting of distinct numbers. */
module Sorting {
  import opened Text

  ghost predicate Increasing(s: seq<int>) {
    forall i, j :: 0 <= i < j < |s| ==> s[i] < s[j]
  }

  function Insert(x: int, s: seq<int>): (r: seq<int>)
    ensures forall y :: y in r <==> y == x || y in s
    ensures Increasing(s) && x !in s ==> Increasing(r)
  {
    if s == [] || x <= s[0] then [x] + s
    else
      assert s == [s[0]] + s[1..];
      var rest := Insert(x, s[1..]);
      assert forall i :: 0 <= i < |rest| ==> rest[i] in rest;
      [s[0]] + rest
  }

  /** `sorted`, on numbers that differ from one another. */
  function Sorted(s: seq<int>): (r: seq<int>)
    ensures forall y :: y in r <==> y in s
    ensures Distinct(s) ==> Increasing(r)
  {
    if s == [] then []
    else
      assert s == [s[0]] + s[1..];
      Insert(s[0], Sorted(s[1..]))
  }
}
