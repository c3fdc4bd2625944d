/** Orders: sequences that list each of the numbers below `n` exactly once. */
module Permutations {

  ghost predicate Distinct(s: seq<nat>) {
    forall i, j :: 0 <= i < j < |s| ==> s[i] != s[j]
  }

  ghost predicate Within(s: seq<nat>, n: nat) {
    forall k :: 0 <= k < |s| ==> s[k] < n
  }

  ghost predicate IsPermutation(s: seq<nat>, n: nat) {
    Distinct(s) && forall k: nat :: k in s <==> k < n
  }

  ghost function Nodes(n: nat): (r: set<nat>)
    ensures forall k: nat :: k in r <==> k < n
    ensures |r| == n
  {
    if n == 0 then {} else Nodes(n - 1) + {n - 1}
  }

  function Elements(s: seq<nat>): set<nat> {
    set x | x in s
  }

  lemma {:induction false} DistinctSize(s: seq<nat>)
    requires Distinct(s)
    ensures |Elements(s)| == |s|
  {
    if s == [] {
      assert Elements(s) == {};
    } else {
      var rest, last := s[..|s| - 1], s[|s| - 1];
      DistinctSize(rest);
      var before := Elements(rest);
      assert s == rest + [last] && last !in rest;
      assert |before + {last}| == |before| + 1;
      assert Elements(s) == before + {last};
    }
  }

  lemma PermutationSize(s: seq<nat>, n: nat)
    requires IsPermutation(s, n)
    ensures |s| == n && Within(s, n)
  {
    DistinctSize(s);
    assert Elements(s) == Nodes(n);
    forall k | 0 <= k < |s|
      ensures s[k] < n
    {
      assert s[k] in s;
    }
  }
}
