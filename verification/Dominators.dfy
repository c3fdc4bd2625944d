/** The dominator sets that `refine_memory_representations` computes, and the proof that they are exact
    for all paths of the block graph. */
module Dominators {
  /** The predecessors of every block of a graph; blocks without predecessors, and block 0, are where
      control can come from outside. */
  type Preds = seq<seq<nat>>

  ghost predicate PredsWithin(preds: Preds) {
    forall b, k :: 0 <= b < |preds| && 0 <= k < |preds[b]| ==> preds[b][k] < |preds|
  }

  predicate IsSource(preds: Preds, b: nat)
    requires b < |preds|
  {
    b == 0 || preds[b] == []
  }

  /** A path from outside to block `b`. */
  ghost predicate IsPath(preds: Preds, path: seq<nat>, b: nat) {
    && |path| > 0 && path[|path| - 1] == b && b < |preds|
    && if |path| == 1 then IsSource(preds, b)
       else path[|path| - 2] in preds[b] && IsPath(preds, path[..|path| - 1], path[|path| - 2])
  }

  /** `c` lies on every path to `b`. */
  ghost predicate Dominates(preds: Preds, c: nat, b: nat) {
    forall path :: IsPath(preds, path, b) ==> c in path
  }

  ghost predicate Avoids(preds: Preds, c: nat, b: nat) {
    exists path :: IsPath(preds, path, b) && c !in path
  }

  // ----- the fixpoint -----

  function Blocks(n: nat): (r: set<nat>)
    ensures forall c: nat :: c in r <==> c < n
  {
    if n == 0 then {} else Blocks(n - 1) + {n - 1}
  }

  /** What one visit makes of the set of `b`. */
  ghost function NextSet(preds: Preds, dom: seq<set<nat>>, b: nat): set<nat>
    requires |dom| == |preds| && b < |preds| && PredsWithin(preds)
  {
    if b == 0 then {0} else set c: nat | c < |preds| && (c == b || (preds[b] != [] && InAll(preds, dom, preds[b], c)))
  }

  ghost predicate InAll(preds: Preds, dom: seq<set<nat>>, from: seq<nat>, c: nat) {
    forall k :: 0 <= k < |from| ==> from[k] < |dom| && c in dom[from[k]]
  }

  ghost predicate IsFixpoint(preds: Preds, dom: seq<set<nat>>)
    requires |dom| == |preds| && PredsWithin(preds)
  {
    forall b :: 0 <= b < |preds| ==> dom[b] == NextSet(preds, dom, b)
  }

  /** Every visit so far has only removed blocks. */
  ghost predicate Shrinking(preds: Preds, dom: seq<set<nat>>)
    requires |dom| == |preds| && PredsWithin(preds)
  {
    forall b :: 0 <= b < |preds| ==> NextSet(preds, dom, b) <= dom[b] <= Blocks(|preds|)
  }

  /** Whatever has been removed from the set of `b` can be avoided on the way to `b`. */
  ghost predicate Justified(preds: Preds, dom: seq<set<nat>>) {
    forall b: nat, c: nat :: b < |dom| && c < |dom| && c !in dom[b] ==> Avoids(preds, c, b)
  }

  ghost function Weight(dom: seq<set<nat>>): nat {
    if dom == [] then 0 else Weight(dom[..|dom| - 1]) + |dom[|dom| - 1]|
  }

  lemma {:induction false} WeightDrops(dom: seq<set<nat>>, b: nat, s: set<nat>)
    requires b < |dom| && s < dom[b]
    ensures Weight(dom[b := s]) < Weight(dom)
  {
    var dom' := dom[b := s];
    SmallerSet(s, dom[b]);
    if b < |dom| - 1 {
      WeightDrops(dom[..|dom| - 1], b, s);
      assert dom'[..|dom| - 1] == dom[..|dom| - 1][b := s];
    } else {
      assert dom'[..|dom| - 1] == dom[..|dom| - 1];
    }
  }

  lemma SmallerSet(s: set<nat>, t: set<nat>)
    requires s < t
    ensures |s| < |t|
  {
    assert t == s + (t - s);
    assert t - s != {};
  }

  lemma Visited(preds: Preds, dom: seq<set<nat>>, b: nat)
    requires |dom| == |preds| && PredsWithin(preds) && 0 < b < |preds|
    requires Shrinking(preds, dom) && Justified(preds, dom)
    ensures var dom' := dom[b := NextSet(preds, dom, b)]; Shrinking(preds, dom') && Justified(preds, dom')
  {
    var next := NextSet(preds, dom, b);
    var dom' := dom[b := next];
    forall a | 0 <= a < |preds|
      ensures NextSet(preds, dom', a) <= NextSet(preds, dom, a)
    {
      forall c | c in NextSet(preds, dom', a)
        ensures c in NextSet(preds, dom, a)
      {
        if a != 0 && c != a {
          StillInAll(preds, dom, dom', preds[a], c);
        }
      }
    }
    forall c: nat | c < |dom| && c !in next
      ensures Avoids(preds, c, b)
    {
      RemovedAvoids(preds, dom, b, c);
    }
  }

  lemma StillInAll(preds: Preds, dom: seq<set<nat>>, dom': seq<set<nat>>, from: seq<nat>, c: nat)
    requires |dom'| == |dom| && (forall b :: 0 <= b < |dom| ==> dom'[b] <= dom[b]) && InAll(preds, dom', from, c)
    ensures InAll(preds, dom, from, c)
  {}

  lemma RemovedAvoids(preds: Preds, dom: seq<set<nat>>, b: nat, c: nat)
    requires |dom| == |preds| && PredsWithin(preds) && 0 < b < |preds| && Justified(preds, dom)
    requires c < |dom| && c !in NextSet(preds, dom, b)
    ensures Avoids(preds, c, b)
  {
    if preds[b] == [] {
      assert IsPath(preds, [b], b) && c !in [b];
    } else {
      var k :| 0 <= k < |preds[b]| && !(c in dom[preds[b][k]]);
      var from := preds[b][k];
      assert Avoids(preds, c, from);
      var path :| IsPath(preds, path, from) && c !in path;
      assert (path + [b])[..|path|] == path;
      assert IsPath(preds, path + [b], b) && c !in path + [b];
    }
  }

  /** The sets of a fixpoint hold only blocks that every path passes through. */
  lemma {:induction false} FixpointDominates(preds: Preds, dom: seq<set<nat>>, path: seq<nat>, b: nat, c: nat)
    requires |dom| == |preds| && PredsWithin(preds) && IsFixpoint(preds, dom)
    requires IsPath(preds, path, b) && c in dom[b]
    ensures c in path
    decreases |path|
  {
    assert c in NextSet(preds, dom, b);
    if c != b {
      var from := path[|path| - 2];
      var k :| 0 <= k < |preds[b]| && preds[b][k] == from;
      assert c in dom[preds[b][k]];
      FixpointDominates(preds, dom, path[..|path| - 1], from, c);
    }
  }

  // ----- the algorithm -----

  method VisitBlock(preds: Preds, dom: seq<set<nat>>, b: nat) returns (next: set<nat>)
    requires |dom| == |preds| && PredsWithin(preds) && 0 < b < |preds| && Shrinking(preds, dom)
    ensures next == NextSet(preds, dom, b)
  {
    next := Blocks(|preds|);
    if preds[b] == [] {
      next := {};
    } else {
      for k := 0 to |preds[b]|
        invariant forall c: nat :: c in next <==> c < |preds| && InAll(preds, dom, preds[b][..k], c)
      {
        forall c: nat
          ensures InAll(preds, dom, preds[b][..k + 1], c) <==>
            InAll(preds, dom, preds[b][..k], c) && c in dom[preds[b][k]]
        {
          assert preds[b][..k + 1] == preds[b][..k] + [preds[b][k]];
          assert (preds[b][..k] + [preds[b][k]])[k] == preds[b][k];
        }
        next := next * dom[preds[b][k]];
      }
      assert preds[b][..|preds[b]|] == preds[b];
    }
    next := next + {b};
  }

  /** The dominator fixpoint: exactly the blocks on every path. */
  method ComputeDominators(preds: Preds) returns (dom: seq<set<nat>>)
    requires PredsWithin(preds)
    ensures |dom| == |preds| && IsFixpoint(preds, dom)
    ensures forall b: nat, c: nat :: b < |preds| && c < |preds| ==> (c in dom[b] <==> Dominates(preds, c, b))
  {
    dom := seq(|preds|, _ => Blocks(|preds|));
    if |preds| > 0 {
      dom := dom[0 := {0}];
    }
    StartJustified(preds, dom);
    var changed := |preds| > 0;
    while changed
      invariant |dom| == |preds| && Shrinking(preds, dom) && Justified(preds, dom) && (|preds| > 0 ==> dom[0] == {0})
      invariant !changed ==> IsFixpoint(preds, dom)
      decreases Weight(dom), changed
    {
      ghost var before := dom;
      changed := false;
      for b := 1 to |preds|
        invariant |dom| == |preds| && Shrinking(preds, dom) && Justified(preds, dom) && dom[0] == {0}
        invariant !changed ==> dom == before && forall a :: 0 <= a < b ==> dom[a] == NextSet(preds, dom, a)
        invariant changed ==> Weight(dom) < Weight(before)
      {
        var next := VisitBlock(preds, dom, b);
        if next != dom[b] {
          Visited(preds, dom, b);
          assert next <= dom[b];
          WeightDrops(dom, b, next);
          dom := dom[b := next];
          changed := true;
        }
      }
    }
    forall b: nat, c: nat | b < |preds| && c < |preds|
      ensures c in dom[b] <==> Dominates(preds, c, b)
    {
      if c in dom[b] {
        forall path | IsPath(preds, path, b)
          ensures c in path
        {
          FixpointDominates(preds, dom, path, b, c);
        }
      } else {
        assert Avoids(preds, c, b);
      }
    }
  }

  lemma StartJustified(preds: Preds, dom: seq<set<nat>>)
    requires PredsWithin(preds) && |dom| == |preds|
    requires forall b :: 0 <= b < |preds| ==> dom[b] == if b == 0 then {0} else Blocks(|preds|)
    ensures Shrinking(preds, dom) && Justified(preds, dom)
  {
    forall b: nat, c: nat | b < |dom| && c < |dom| && c !in dom[b]
      ensures Avoids(preds, c, b)
    {
      assert IsPath(preds, [0], 0) && c !in [0];
    }
  }
}
