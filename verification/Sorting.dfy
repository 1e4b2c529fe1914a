/** Sorting of distinct numbers, standing for the library sort the engine calls. */
module Sorting {
  import opened Blocks

  predicate Increasing(s: seq<nat>) { forall i, j :: 0 <= i < j < |s| ==> s[i] < s[j] }

  function Insert(s: seq<nat>, x: nat): (r: seq<nat>)
    requires Increasing(s) && x !in s
    ensures Increasing(r) && |r| == |s| + 1
    ensures forall y :: y in r <==> y in s || y == x
  {
    if s == [] || x < s[0] then [x] + s
    else
      var rest := Insert(s[1..], x);
      assert [s[0]] + s[1..] == s;
      Prepend(s[0], rest, s[1..], x);
      [s[0]] + rest
  }

  lemma Prepend(first: nat, rest: seq<nat>, tail: seq<nat>, x: nat)
    requires Increasing(rest) && Increasing([first] + tail) && first < x
    requires forall y :: y in rest <==> y in tail || y == x
    ensures Increasing([first] + rest)
    ensures forall y :: y in [first] + rest <==> y in [first] + tail || y == x
  {
    var s := [first] + tail;
    forall j | 0 <= j < |rest| ensures first < rest[j] {
      assert rest[j] in rest;
      if rest[j] != x {
        var k :| 0 <= k < |tail| && tail[k] == rest[j];
        assert s[0] < s[k + 1];
      }
    }
  }

  function Sort(s: seq<nat>): (r: seq<nat>)
    requires Distinct(s)
    ensures Increasing(r) && |r| == |s|
    ensures forall y :: y in r <==> y in s
  {
    if s == [] then []
    else
      assert forall y :: y in s <==> y == s[0] || y in s[1..];
      Insert(Sort(s[1..]), s[0])
  }
}
