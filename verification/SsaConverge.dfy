/** Why `build_value_ssa` settles: a name other than the entry value and the block's own phi reaches a block
    only from one owner on every path without a loop, so the names settle owner by owner. */
module SsaConverge {
  import opened Words
  import opened Ir
  import opened Semantics
  import opened Blocks
  import opened Ssa
  import opened SsaNaming

  // ----- blocks that write a slot -----

  ghost predicate WritesIn(p: RuntimeProgram, g: BlockGraph, b: nat, x: nat) {
    b < |g.starts| && exists i: nat :: g.starts[b] <= i < g.End(b) && WritesSlot(p, i, x)
  }

  lemma {:induction false} RowKept(p: RuntimeProgram, defs: map<(nat, nat), nat>, row: Row, start: nat, end: nat,
      x: nat)
    requires DefsTotal(p, defs) && x < |row| && forall i: nat :: start <= i < end ==> !WritesSlot(p, i, x)
    ensures RowAt(p, defs, row, start, end)[x] == row[x]
  {
    if end > start {
      RowKept(p, defs, row, start, end - 1, x);
    }
  }

  /** A written slot leaves a block under the name of its last write, whatever the names on entry are. */
  lemma {:induction false} RowWritten(p: RuntimeProgram, defs: map<(nat, nat), nat>, row: Row, other: Row, start: nat,
      end: nat, x: nat) returns (i: nat)
    requires DefsTotal(p, defs) && x < |row| == |other| && exists k: nat :: start <= k < end && WritesSlot(p, k, x)
    ensures start <= i < end && WritesSlot(p, i, x) && (i, x) in defs
    ensures RowAt(p, defs, row, start, end)[x] == RowAt(p, defs, other, start, end)[x] == defs[(i, x)]
  {
    if WritesSlot(p, end - 1, x) {
      i := end - 1;
    } else {
      i := RowWritten(p, defs, row, other, start, end - 1, x);
    }
  }

  /** The name under which block `b` leaves a slot it writes. */
  ghost function OwnDef(p: RuntimeProgram, g: BlockGraph, defs: map<(nat, nat), nat>, b: nat, x: nat): nat
    requires DefsTotal(p, defs) && b < |g.starts| && x < p.slots
  {
    RowAt(p, defs, seq(p.slots, y requires 0 <= y < p.slots => y), g.starts[b], g.End(b))[x]
  }

  predicate IsPhi(n: Naming, v: nat, b: nat, x: nat) {
    (b, x) in n.phis && v == n.phis[(b, x)]
  }

  /** Value `v` of slot `x` is made by block `a`. */
  ghost predicate Owned(p: RuntimeProgram, g: BlockGraph, n: Naming, v: nat, a: nat, x: nat)
    requires DefsTotal(p, n.defs)
  {
    a < |g.starts| && x < p.slots && if WritesIn(p, g, a, x) then v == OwnDef(p, g, n.defs, a, x) else IsPhi(n, v, a, x)
  }

  lemma OwnerUnique(p: RuntimeProgram, g: BlockGraph, n: Naming, v: nat, a: nat, c: nat, x: nat)
    requires g.Cuts(p) && TablesOk(p, n) && DefsTotal(p, n.defs) && Owned(p, g, n, v, a, x) && Owned(p, g, n, v, c, x)
    ensures a == c && v != x
  {
    OwnerDefines(p, g, n, v, a, x);
    OwnerDefines(p, g, n, v, c, x);
  }

  ghost predicate MadeIn(g: BlockGraph, def: SSAValueDef, a: nat) {
    match def
    case Entry => false
    case Phi(b) => a == b
    case Instr(i) => i < |g.block_of| && g.block_of[i] == a
  }

  lemma OwnerDefines(p: RuntimeProgram, g: BlockGraph, n: Naming, v: nat, a: nat, x: nat)
    requires g.Cuts(p) && TablesOk(p, n) && DefsTotal(p, n.defs) && Owned(p, g, n, v, a, x)
    ensures v < |n.values| && MadeIn(g, n.values[v].def, a) && v != x
  {
    if WritesIn(p, g, a, x) {
      var row := seq(p.slots, y requires 0 <= y < p.slots => y);
      var i := RowWritten(p, n.defs, row, row, g.starts[a], g.End(a), x);
      BlockUnique(g, p, a, i);
    }
  }

  // ----- how names spread -----

  /** Every path back from block `b` comes to block `a`, before any other block that writes `x`, within `r`
      steps. */
  ghost predicate Carried(p: RuntimeProgram, g: BlockGraph, preds: seq<seq<nat>>, a: nat, b: nat, x: nat, r: nat)
    decreases r
  {
    && r > 0 && b < |preds| && b != 0 && preds[b] != []
    && forall c: nat :: c in preds[b] ==> c == a || (!WritesIn(p, g, c, x) && Carried(p, g, preds, a, c, x, r - 1))
  }

  lemma {:induction false} CarriedLonger(p: RuntimeProgram, g: BlockGraph, preds: seq<seq<nat>>, a: nat, b: nat, x: nat,
      r: nat, s: nat)
    requires Carried(p, g, preds, a, b, x, r) && r <= s
    ensures Carried(p, g, preds, a, b, x, s)
    decreases r
  {
    hide WritesIn;
    forall c: nat | c in preds[b] && c != a
      ensures Carried(p, g, preds, a, c, x, s - 1)
    {
      CarriedLonger(p, g, preds, a, c, x, r - 1, s - 1);
    }
  }

  lemma {:induction false} CarriedTransitive(p: RuntimeProgram, g: BlockGraph, preds: seq<seq<nat>>, d: nat, a: nat,
      b: nat, x: nat, q: nat, r: nat)
    requires Carried(p, g, preds, d, a, x, q) && !WritesIn(p, g, a, x) && Carried(p, g, preds, a, b, x, r)
    ensures Carried(p, g, preds, d, b, x, q + r)
    decreases r
  {
    hide WritesIn;
    forall c: nat | c in preds[b] && c != d
      ensures !WritesIn(p, g, c, x) && Carried(p, g, preds, d, c, x, q + r - 1)
    {
      if c == a {
        CarriedLonger(p, g, preds, d, a, x, q, q + r - 1);
      } else {
        CarriedTransitive(p, g, preds, d, a, c, x, q, r - 1);
      }
    }
  }

  // ----- one visit to a block -----

  /** `m` is `n` after block `b` has been visited. */
  ghost predicate Visit(p: RuntimeProgram, g: BlockGraph, preds: seq<seq<nat>>, n: Naming, m: Naming, b: nat)
    requires DefsTotal(p, n.defs)
  {
    && b < |g.starts| == |preds| == |n.ins| == |n.outs|
    && n.values <= m.values && m.defs == n.defs && (forall k :: k in n.phis ==> k in m.phis && m.phis[k] == n.phis[k])
    && |m.ins| == |n.ins| && |m.outs| == |n.outs| && |m.ins[b]| == p.slots
    && m.ins == n.ins[b := m.ins[b]] && m.outs == n.outs[b := m.outs[b]]
    && (forall x: nat :: x < p.slots ==> Merged(m, preds, n.outs, b, x, m.ins[b][x]))
    && m.outs[b] == RowAt(p, n.defs, m.ins[b], g.starts[b], g.End(b))
  }

  ghost predicate InOrigin(p: RuntimeProgram, g: BlockGraph, preds: seq<seq<nat>>, n: Naming, b: nat, x: nat, v: nat)
    requires DefsTotal(p, n.defs)
  {
    v == x || IsPhi(n, v, b, x) || exists a: nat, r: nat :: Brought(p, g, preds, n, a, b, x, r, v)
  }

  ghost predicate Brought(p: RuntimeProgram, g: BlockGraph, preds: seq<seq<nat>>, n: Naming, a: nat, b: nat, x: nat,
      r: nat, v: nat)
    requires DefsTotal(p, n.defs)
  {
    Owned(p, g, n, v, a, x) && Carried(p, g, preds, a, b, x, r)
  }

  /** Some predecessor passes on something else than the entry value. */
  ghost predicate Fed(preds: seq<seq<nat>>, outs: seq<Row>, b: nat, x: nat) {
    b < |preds| && exists c: nat :: c in preds[b] && c < |outs| && x < |outs[c]| && outs[c][x] != x
  }

  /** Blocks that no write and no entry value can reach except through themselves keep the entry value. */
  ghost predicate Barren(p: RuntimeProgram, g: BlockGraph, preds: seq<seq<nat>>, b: nat, x: nat) {
    !WritesIn(p, g, b, x) && exists a: nat, r: nat, s: nat :: Circle(p, g, preds, a, b, x, r, s)
  }

  ghost predicate Circle(p: RuntimeProgram, g: BlockGraph, preds: seq<seq<nat>>, a: nat, b: nat, x: nat, r: nat,
      s: nat)
  {
    Carried(p, g, preds, a, a, x, r) && !WritesIn(p, g, a, x) && Carried(p, g, preds, a, b, x, s)
  }

  ghost predicate TrackedAt(p: RuntimeProgram, g: BlockGraph, preds: seq<seq<nat>>, n: Naming, b: nat, x: nat)
    requires DefsTotal(p, n.defs) && b < |g.starts| && x < p.slots
    requires RowsOk(p, g, n.values, n.ins) && RowsOk(p, g, n.values, n.outs)
  {
    var v, out := n.ins[b][x], n.outs[b][x];
    && InOrigin(p, g, preds, n, b, x, v)
    && (if WritesIn(p, g, b, x) then out == x || out == OwnDef(p, g, n.defs, b, x) else out == v)
    && (v != x ==> Fed(preds, n.outs, b, x))
    && (Barren(p, g, preds, b, x) ==> out == x)
  }

  ghost predicate Tracked(p: RuntimeProgram, g: BlockGraph, preds: seq<seq<nat>>, n: Naming) {
    && g.Valid(p) && PredsOk(g, preds) && WellNamed(p, g, n) && DefsTotal(p, n.defs)
    && forall b: nat, x: nat :: b < |g.starts| && x < p.slots ==> TrackedAt(p, g, preds, n, b, x)
  }

  // ----- a visit keeps what is tracked -----

  lemma PredInRange(g: BlockGraph, preds: seq<seq<nat>>, b: nat, c: nat)
    requires PredsOk(g, preds) && b < |preds| && c in preds[b]
    ensures c < |g.starts|
  {}

  /** The values that may flow into a slot are the entry value and what the predecessors pass on. */
  lemma CandidateFrom(p: RuntimeProgram, g: BlockGraph, preds: seq<seq<nat>>, n: Naming, b: nat, x: nat, v: nat)
    requires PredsOk(g, preds) && RowsOk(p, g, n.values, n.outs) && b < |g.starts| && x < p.slots
    ensures v in Candidates(n.outs, preds, b, x) <==>
      (v == x && (b == 0 || preds[b] == [])) || exists c: nat ::
        c in preds[b] && c < |n.outs| && |n.outs[c]| == p.slots && n.outs[c][x] == v
  {
    forall c: nat | c in preds[b]
      ensures c < |n.outs| && RowOk(p, n.values, n.outs[c])
    {
      PredInRange(g, preds, b, c);
    }
  }

  /** A block gets something else than the entry value exactly when it is fed. */
  lemma FedDecides(p: RuntimeProgram, g: BlockGraph, preds: seq<seq<nat>>, n: Naming, m: Naming, b: nat, x: nat)
    requires PredsOk(g, preds) && WellNamed(p, g, n) && WellNamed(p, g, m) && DefsTotal(p, n.defs)
      && Visit(p, g, preds, n, m, b) && x < p.slots
    ensures m.ins[b][x] != x <==> Fed(preds, n.outs, b, x)
  {
    var cands, v := Candidates(n.outs, preds, b, x), m.ins[b][x];
    assert Merged(m, preds, n.outs, b, x, v);
    forall u: nat
      ensures u in cands <==>
        (u == x && (b == 0 || preds[b] == [])) || exists c: nat ::
        c in preds[b] && c < |n.outs| && |n.outs[c]| == p.slots && n.outs[c][x] == u
    {
      CandidateFrom(p, g, preds, n, b, x, u);
    }
    forall c: nat | c in preds[b]
      ensures c < |n.outs| && RowOk(p, n.values, n.outs[c])
    {
      PredInRange(g, preds, b, c);
    }
    hide Candidates;
    hide Visit;
    if Fed(preds, n.outs, b, x) {
      var c: nat :| c in preds[b] && c < |n.outs| && x < |n.outs[c]| && n.outs[c][x] != x;
      assert n.outs[c][x] in cands;
      PhiIsNotEntry(p, m, b, x);
    } else {
      OnlyEntry(preds, n.outs, b, x, cands);
    }
  }

  lemma PhiIsNotEntry(p: RuntimeProgram, m: Naming, b: nat, x: nat)
    requires TablesOk(p, m) && x < p.slots
    ensures (b, x) in m.phis ==> m.phis[(b, x)] != x
  {}

  lemma OnlyEntry(preds: seq<seq<nat>>, outs: seq<Row>, b: nat, x: nat, cands: set<nat>)
    requires b < |preds| && !Fed(preds, outs, b, x)
    requires forall c: nat :: c in preds[b] ==> c < |outs| && x < |outs[c]|
    requires forall u: nat :: u in cands <==>
      (u == x && (b == 0 || preds[b] == [])) || exists c: nat :: c in preds[b] && outs[c][x] == u
    ensures cands == {x}
  {
    if preds[b] != [] {
      var c := preds[b][0];
      assert c in preds[b];
      assert outs[c][x] == x;
    }
    assert x in cands;
  }

  /** Where the value on entry comes from. */
  lemma VisitOrigin(p: RuntimeProgram, g: BlockGraph, preds: seq<seq<nat>>, n: Naming, m: Naming, b: nat, x: nat)
    requires Tracked(p, g, preds, n) && WellNamed(p, g, m) && Visit(p, g, preds, n, m, b) && x < p.slots
    ensures InOrigin(p, g, preds, m, b, x, m.ins[b][x])
  {
    var v := m.ins[b][x];
    assert Merged(m, preds, n.outs, b, x, v);
    CandidateFrom(p, g, preds, n, b, x, x);
    if v != x && !IsPhi(m, v, b, x) {
      assert Candidates(n.outs, preds, b, x) == {v};
      OneValue(p, g, preds, n, b, x, v);
      var a, r := BroughtTogether(p, g, preds, n, b, x, v);
      OwnedLater(p, g, preds, n, m, b, v, a, x);
      assert Brought(p, g, preds, m, a, b, x, r, v);
    }
  }

  lemma OwnedLater(p: RuntimeProgram, g: BlockGraph, preds: seq<seq<nat>>, n: Naming, m: Naming, b: nat, v: nat, a: nat,
      x: nat)
    requires DefsTotal(p, n.defs) && Visit(p, g, preds, n, m, b) && Owned(p, g, n, v, a, x)
    ensures Owned(p, g, m, v, a, x)
  {
    hide WritesIn;
    hide Merged;
  }

  /** All predecessors pass on the one value. */
  lemma OneValue(p: RuntimeProgram, g: BlockGraph, preds: seq<seq<nat>>, n: Naming, b: nat, x: nat, v: nat)
    requires PredsOk(g, preds) && RowsOk(p, g, n.values, n.outs) && b < |g.starts| && x < p.slots
    requires Candidates(n.outs, preds, b, x) == {v} && v != x
    ensures b != 0 && preds[b] != [] && forall c: nat :: c in preds[b] ==>
      c < |n.outs| && |n.outs[c]| == p.slots && n.outs[c][x] == v
  {
    CandidateFrom(p, g, preds, n, b, x, x);
    forall c: nat | c in preds[b]
      ensures c < |n.outs| && |n.outs[c]| == p.slots && n.outs[c][x] == v
    {
      PredInRange(g, preds, b, c);
      assert RowOk(p, n.values, n.outs[c]);
      CandidateFrom(p, g, preds, n, b, x, n.outs[c][x]);
      assert n.outs[c][x] in Candidates(n.outs, preds, b, x);
    }
  }

  /** A predecessor that passes on a value owns it, or has had it brought. */
  lemma PassedOn(p: RuntimeProgram, g: BlockGraph, preds: seq<seq<nat>>, n: Naming, c: nat, x: nat)
      returns (a: nat, r: nat)
    requires Tracked(p, g, preds, n) && c < |g.starts| && x < p.slots && n.outs[c][x] != x
    ensures Owned(p, g, n, n.outs[c][x], a, x)
    ensures a == c || (!WritesIn(p, g, c, x) && Carried(p, g, preds, a, c, x, r))
  {
    assert TrackedAt(p, g, preds, n, c, x);
    hide Tracked;
    hide Carried;
    hide Fed;
    hide Barren;
    var v := n.outs[c][x];
    if WritesIn(p, g, c, x) || IsPhi(n, v, c, x) {
      a, r := c, 0;
    } else {
      a, r :| Brought(p, g, preds, n, a, c, x, r, v);
    }
  }

  /** The predecessors have one owner of the value in common. */
  lemma BroughtTogether(p: RuntimeProgram, g: BlockGraph, preds: seq<seq<nat>>, n: Naming, b: nat, x: nat, v: nat)
      returns (a: nat, r: nat)
    requires Tracked(p, g, preds, n) && b < |g.starts| && x < p.slots && v != x && b != 0 && preds[b] != []
    requires forall c: nat :: c in preds[b] ==> c < |n.outs| && |n.outs[c]| == p.slots && n.outs[c][x] == v
    ensures Brought(p, g, preds, n, a, b, x, r, v)
  {
    var c0 := preds[b][0];
    assert c0 in preds[b];
    var r0;
    a, r0 := PassedOn(p, g, preds, n, c0, x);
    r := 0;
    assert preds[b][..0] == [];
    for k := 0 to |preds[b]|
      invariant forall c: nat :: c in preds[b][..k] ==>
        c == a || (!WritesIn(p, g, c, x) && Carried(p, g, preds, a, c, x, r))
    {
      var c := preds[b][k];
      assert c in preds[b];
      var d, s := PassedOn(p, g, preds, n, c, x);
      OwnerUnique(p, g, n, v, a, d, x);
      hide Tracked;
      hide Owned;
      hide WritesIn;
      var longer := if s > r then s else r;
      forall e: nat | e in preds[b][..k + 1]
        ensures e == a || (!WritesIn(p, g, e, x) && Carried(p, g, preds, a, e, x, longer))
      {
        if e != a {
          if e in preds[b][..k] {
            CarriedLonger(p, g, preds, a, e, x, r, longer);
          } else {
            assert e == c;
            CarriedLonger(p, g, preds, a, e, x, s, longer);
          }
        }
      }
      r := longer;
    }
    assert preds[b][..|preds[b]|] == preds[b];
    r := r + 1;
  }

  /** All that feeds a barren block is barren. */
  lemma BarrenUnfed(p: RuntimeProgram, g: BlockGraph, preds: seq<seq<nat>>, n: Naming, b: nat, x: nat)
    requires Tracked(p, g, preds, n) && b < |g.starts| && x < p.slots && Barren(p, g, preds, b, x)
    ensures !Fed(preds, n.outs, b, x)
  {
    var a: nat, r: nat, s: nat :| Circle(p, g, preds, a, b, x, r, s);
    forall c: nat | c in preds[b]
      ensures c < |n.outs| && n.outs[c][x] == x
    {
      PredInRange(g, preds, b, c);
      assert RowOk(p, n.values, n.outs[c]);
      assert Circle(p, g, preds, a, c, x, r, if c == a then r else s - 1);
      assert Barren(p, g, preds, c, x);
      assert TrackedAt(p, g, preds, n, c, x);
    }
  }

  /** What leaves the visited block. */
  lemma VisitOut(p: RuntimeProgram, g: BlockGraph, preds: seq<seq<nat>>, n: Naming, m: Naming, b: nat, x: nat)
    requires g.Cuts(p) && DefsTotal(p, n.defs) && WellNamed(p, g, m) && Visit(p, g, preds, n, m, b) && x < p.slots
    ensures if WritesIn(p, g, b, x) then m.outs[b][x] == OwnDef(p, g, n.defs, b, x)
      && m.outs[b][x] != x else m.outs[b][x] == m.ins[b][x]
  {
    hide Merged;
    if WritesIn(p, g, b, x) {
      var row := seq(p.slots, y requires 0 <= y < p.slots => y);
      var i := RowWritten(p, n.defs, m.ins[b], row, g.starts[b], g.End(b), x);
    } else {
      RowKept(p, n.defs, m.ins[b], g.starts[b], g.End(b), x);
    }
  }

  /** No block goes back to passing on the entry value. */
  ghost predicate OutsGrow(p: RuntimeProgram, n: Naming, m: Naming) {
    |m.outs| == |n.outs| &&
    forall c: nat, x: nat :: c < |n.outs| && x < p.slots && OutMoved(n, c, x) ==> OutMoved(m, c, x)
  }

  predicate OutMoved(n: Naming, c: nat, x: nat) {
    c < |n.outs| && x < |n.outs[c]| && n.outs[c][x] != x
  }

  lemma VisitGrows(p: RuntimeProgram, g: BlockGraph, preds: seq<seq<nat>>, n: Naming, m: Naming, b: nat)
    requires Tracked(p, g, preds, n) && WellNamed(p, g, m) && Visit(p, g, preds, n, m, b)
    ensures OutsGrow(p, n, m)
  {
    forall x: nat | x < p.slots && OutMoved(n, b, x)
      ensures OutMoved(m, b, x)
    {
      assert TrackedAt(p, g, preds, n, b, x);
      VisitOut(p, g, preds, n, m, b, x);
      FedDecides(p, g, preds, n, m, b, x);
      assert RowOk(p, m.values, m.outs[b]);
    }
    hide Tracked;
    hide Merged;
  }

  lemma FedLater(p: RuntimeProgram, preds: seq<seq<nat>>, n: Naming, m: Naming, b: nat, x: nat)
    requires OutsGrow(p, n, m) && Fed(preds, n.outs, b, x) && x < p.slots
    ensures Fed(preds, m.outs, b, x)
  {
    var c: nat :| c in preds[b] && c < |n.outs| && x < |n.outs[c]| && n.outs[c][x] != x;
    assert OutMoved(n, c, x);
    assert OutMoved(m, c, x);
  }

  lemma TrackedHere(p: RuntimeProgram, g: BlockGraph, preds: seq<seq<nat>>, n: Naming, m: Naming, b: nat, x: nat)
    requires Tracked(p, g, preds, n) && WellNamed(p, g, m) && Visit(p, g, preds, n, m, b) && x < p.slots
      && DefsTotal(p, m.defs)
    ensures TrackedAt(p, g, preds, m, b, x)
  {
    VisitOrigin(p, g, preds, n, m, b, x);
    VisitOut(p, g, preds, n, m, b, x);
    FedDecides(p, g, preds, n, m, b, x);
    VisitGrows(p, g, preds, n, m, b);
    if m.ins[b][x] != x {
      FedLater(p, preds, n, m, b, x);
    }
    if Barren(p, g, preds, b, x) {
      BarrenUnfed(p, g, preds, n, b, x);
    }
    hide InOrigin;
    hide Fed;
    hide Merged;
    hide Tracked;
    hide OutsGrow;
    hide RowAt;
  }

  lemma TrackedElsewhere(p: RuntimeProgram, g: BlockGraph, preds: seq<seq<nat>>, n: Naming, m: Naming, b: nat, c: nat,
      x: nat)
    requires Tracked(p, g, preds, n) && WellNamed(p, g, m) && Visit(p, g, preds, n, m, b) && OutsGrow(p, n, m)
    requires c < |g.starts| && c != b && x < p.slots && DefsTotal(p, m.defs)
    ensures TrackedAt(p, g, preds, m, c, x)
  {
    hide Fed;
    hide Barren;
    hide Merged;
    hide WritesIn;
    hide OwnDef;
    hide OutsGrow;
    assert TrackedAt(p, g, preds, n, c, x);
    hide Tracked;
    var v := n.ins[c][x];
    if v != x {
      FedLater(p, preds, n, m, c, x);
      if !IsPhi(n, v, c, x) {
        var a: nat, r: nat :| Brought(p, g, preds, n, a, c, x, r, v);
        OwnedLater(p, g, preds, n, m, b, v, a, x);
        assert Brought(p, g, preds, m, a, c, x, r, v);
      }
    }
  }

  lemma VisitTracked(p: RuntimeProgram, g: BlockGraph, preds: seq<seq<nat>>, n: Naming, m: Naming, b: nat)
    requires Tracked(p, g, preds, n) && WellNamed(p, g, m) && Visit(p, g, preds, n, m, b)
    ensures Tracked(p, g, preds, m) && OutsGrow(p, n, m)
  {
    VisitGrows(p, g, preds, n, m, b);
    assert m.defs == n.defs && DefsTotal(p, n.defs) && g.Valid(p) && PredsOk(g, preds);
    forall c: nat, x: nat | c < |g.starts| && x < p.slots
      ensures TrackedAt(p, g, preds, m, c, x)
    {
      if c == b {
        TrackedHere(p, g, preds, n, m, b, x);
      } else {
        TrackedElsewhere(p, g, preds, n, m, b, c, x);
      }
    }
    hide TrackedAt;
    hide OutsGrow;
    hide Visit;
  }

  lemma StartTracked(p: RuntimeProgram, g: BlockGraph, preds: seq<seq<nat>>, n: Naming)
    requires g.Valid(p) && PredsOk(g, preds) && WellNamed(p, g, n) && DefsTotal(p, n.defs)
    requires forall b: nat, x: nat :: b < |g.starts| && x < p.slots ==> n.ins[b][x] == x && n.outs[b][x] == x
    ensures Tracked(p, g, preds, n)
  {
    hide WritesIn;
    hide Carried;
    hide OwnDef;
  }

  // ----- when no further block passes on a value of its own -----

  ghost predicate SameMoved(p: RuntimeProgram, n: Naming, m: Naming) {
    OutsGrow(p, n, m) && OutsGrow(p, m, n)
  }

  /** The block is fed exactly if it does not enter with the entry value, and passes its writes on. */
  ghost predicate FixedAt(p: RuntimeProgram, g: BlockGraph, preds: seq<seq<nat>>, n: Naming, b: nat, x: nat)
    requires b < |n.ins| && x < |n.ins[b]|
  {
    (n.ins[b][x] != x <==> Fed(preds, n.outs, b, x)) && (WritesIn(p, g, b, x) ==> OutMoved(n, b, x))
  }

  ghost predicate FixedBelow(p: RuntimeProgram, g: BlockGraph, preds: seq<seq<nat>>, n: Naming, k: nat)
    requires RowsOk(p, g, n.values, n.ins)
  {
    forall b: nat, x: nat :: b < k && b < |g.starts| && x < p.slots ==> FixedAt(p, g, preds, n, b, x)
  }

  lemma FixedHere(p: RuntimeProgram, g: BlockGraph, preds: seq<seq<nat>>, n: Naming, m: Naming, b: nat, x: nat)
    requires Tracked(p, g, preds, n) && Tracked(p, g, preds, m) && Visit(p, g, preds, n, m, b) && SameMoved(p, n, m)
      && x < p.slots
    ensures FixedAt(p, g, preds, m, b, x)
  {
    FedDecides(p, g, preds, n, m, b, x);
    VisitOut(p, g, preds, n, m, b, x);
    if Fed(preds, n.outs, b, x) {
      FedLater(p, preds, n, m, b, x);
    }
    if Fed(preds, m.outs, b, x) {
      FedLater(p, preds, m, n, b, x);
    }
    assert RowOk(p, m.values, m.outs[b]);
    hide Tracked;
    hide Merged;
    hide Fed;
    hide SameMoved;
    hide RowAt;
  }

  lemma FixedElsewhere(p: RuntimeProgram, g: BlockGraph, preds: seq<seq<nat>>, n: Naming, m: Naming, b: nat, c: nat,
      x: nat)
    requires DefsTotal(p, n.defs) && Visit(p, g, preds, n, m, b) && SameMoved(p, n, m)
    requires c < |n.ins| && x < |n.ins[c]| && x < p.slots && c != b && FixedAt(p, g, preds, n, c, x) && c < |n.outs|
    ensures FixedAt(p, g, preds, m, c, x)
  {
    if Fed(preds, n.outs, c, x) {
      FedLater(p, preds, n, m, c, x);
    }
    if Fed(preds, m.outs, c, x) {
      FedLater(p, preds, m, n, c, x);
    }
    hide Fed;
    hide Merged;
    hide WritesIn;
    hide RowAt;
  }

  lemma FixedMore(p: RuntimeProgram, g: BlockGraph, preds: seq<seq<nat>>, n: Naming, m: Naming, b: nat)
    requires Tracked(p, g, preds, n) && Tracked(p, g, preds, m) && Visit(p, g, preds, n, m, b) && SameMoved(p, n, m)
    requires FixedBelow(p, g, preds, n, b)
    ensures FixedBelow(p, g, preds, m, b + 1)
  {
    forall c: nat, x: nat | c < b + 1 && c < |g.starts| && x < p.slots
      ensures FixedAt(p, g, preds, m, c, x)
    {
      if c == b {
        FixedHere(p, g, preds, n, m, b, x);
      } else {
        assert RowOk(p, n.values, n.ins[c]);
        FixedElsewhere(p, g, preds, n, m, b, c, x);
      }
    }
  }

  ghost predicate AllFixed(p: RuntimeProgram, g: BlockGraph, preds: seq<seq<nat>>, n: Naming) {
    Tracked(p, g, preds, n) && FixedBelow(p, g, preds, n, |g.starts|)
  }

  /** Once fixed, the blocks with the entry value stay the same. */
  lemma FixedStays(p: RuntimeProgram, g: BlockGraph, preds: seq<seq<nat>>, n: Naming, m: Naming, b: nat)
    requires AllFixed(p, g, preds, n) && WellNamed(p, g, m) && Visit(p, g, preds, n, m, b)
    ensures AllFixed(p, g, preds, m) && SameMoved(p, n, m)
    ensures forall x: nat :: x < p.slots ==> (m.ins[b][x] != x <==> n.ins[b][x] != x)
  {
    VisitTracked(p, g, preds, n, m, b);
    forall x: nat | x < p.slots
      ensures m.ins[b][x] != x <==> n.ins[b][x] != x
      ensures OutMoved(m, b, x) ==> OutMoved(n, b, x)
    {
      MovedBefore(p, g, preds, n, m, b, x);
    }
    hide TrackedAt;
    hide Merged;
    hide FixedAt;
    assert OutsGrow(p, m, n);
    forall c: nat, x: nat | c < |g.starts| && x < p.slots
      ensures FixedAt(p, g, preds, m, c, x)
    {
      if c == b {
        FixedHere(p, g, preds, n, m, b, x);
      } else {
        assert RowOk(p, n.values, n.ins[c]) && FixedAt(p, g, preds, n, c, x);
        FixedElsewhere(p, g, preds, n, m, b, c, x);
      }
    }
  }

  lemma MovedBefore(p: RuntimeProgram, g: BlockGraph, preds: seq<seq<nat>>, n: Naming, m: Naming, b: nat, x: nat)
    requires AllFixed(p, g, preds, n) && WellNamed(p, g, m) && Visit(p, g, preds, n, m, b) && x < p.slots
    ensures m.ins[b][x] != x <==> n.ins[b][x] != x
    ensures OutMoved(m, b, x) ==> OutMoved(n, b, x)
  {
    assert FixedAt(p, g, preds, n, b, x) && TrackedAt(p, g, preds, n, b, x);
    assert RowOk(p, n.values, n.outs[b]);
    FedDecides(p, g, preds, n, m, b, x);
    VisitOut(p, g, preds, n, m, b, x);
    hide Tracked;
    hide Fed;
    hide Merged;
    hide InOrigin;
    hide Barren;
    hide RowAt;
  }

  // ----- names that have settled -----

  ghost predicate NeverCarried(p: RuntimeProgram, g: BlockGraph, preds: seq<seq<nat>>, b: nat, x: nat) {
    forall a: nat, r: nat :: !Carried(p, g, preds, a, b, x, r)
  }

  /** What predecessors pass on does not change any more. */
  ghost predicate Supported(p: RuntimeProgram, g: BlockGraph, preds: seq<seq<nat>>, settled: set<(nat, nat)>, b: nat,
      x: nat)
  {
    b < |preds| && forall c: nat :: c in preds[b] ==> WritesIn(p, g, c, x) || (c, x) in settled
  }

  ghost predicate Anchored(p: RuntimeProgram, g: BlockGraph, preds: seq<seq<nat>>, n: Naming, settled: set<(nat, nat)>,
      b: nat, x: nat)
    requires b < |n.ins| && x < |n.ins[b]|
  {
    n.ins[b][x] == x || NeverCarried(p, g, preds, b, x) ||
    (Supported(p, g, preds, settled, b, x) && Merged(n, preds, n.outs, b, x, n.ins[b][x]))
  }

  ghost predicate InTable(p: RuntimeProgram, g: BlockGraph, k: (nat, nat)) {
    k.0 < |g.starts| && k.1 < p.slots
  }

  ghost predicate SettledOk(p: RuntimeProgram, g: BlockGraph, preds: seq<seq<nat>>, n: Naming, settled: set<(nat, nat)>)
    requires RowsOk(p, g, n.values, n.ins)
  {
    EachAnchored(p, g, preds, n, settled) && HasBase(p, g, preds, n, settled)
  }

  ghost predicate EachAnchored(p: RuntimeProgram, g: BlockGraph, preds: seq<seq<nat>>, n: Naming,
      settled: set<(nat, nat)>)
    requires RowsOk(p, g, n.values, n.ins)
  {
    forall k :: k in settled ==> InTable(p, g, k) && Anchored(p, g, preds, n, settled, k.0, k.1)
  }

  ghost predicate HasBase(p: RuntimeProgram, g: BlockGraph, preds: seq<seq<nat>>, n: Naming, settled: set<(nat, nat)>)
    requires RowsOk(p, g, n.values, n.ins)
  {
    forall b: nat, x: nat :: b < |g.starts| && x < p.slots && (n.ins[b][x] == x || NeverCarried(p, g, preds, b, x)) ==>
      (b, x) in settled
  }

  /** Settled names stay the same. */
  ghost predicate SameSettled(p: RuntimeProgram, n: Naming, m: Naming, settled: set<(nat, nat)>) {
    |m.ins| == |n.ins| && |m.outs| == |n.outs| &&
    forall k :: k in settled && k.0 < |n.ins| && k.1 < |n.ins[k.0]| ==>
      k.1 < |m.ins[k.0]| && m.ins[k.0][k.1] == n.ins[k.0][k.1]
  }

  lemma SettledHere(p: RuntimeProgram, g: BlockGraph, preds: seq<seq<nat>>, n: Naming, m: Naming,
      settled: set<(nat, nat)>, b: nat, x: nat)
    requires AllFixed(p, g, preds, n) && Tracked(p, g, preds, m) && Visit(p, g, preds, n, m, b) && x < p.slots
    requires Anchored(p, g, preds, n, settled, b, x)
    requires m.ins[b][x] != x <==> n.ins[b][x] != x
    ensures m.ins[b][x] == n.ins[b][x]
  {
    if n.ins[b][x] != x {
      assert Merged(m, preds, n.outs, b, x, m.ins[b][x]);
      assert TrackedAt(p, g, preds, n, b, x) && TrackedAt(p, g, preds, m, b, x);
      hide Candidates;
      hide WritesIn;
      hide Fed;
      hide Barren;
      hide Owned;
      hide FixedBelow;
    }
  }

  /** The values that may flow into a supported slot stay the same. */
  lemma SameCandidates(p: RuntimeProgram, g: BlockGraph, preds: seq<seq<nat>>, n: Naming, m: Naming,
      settled: set<(nat, nat)>, c: nat, x: nat)
    requires AllFixed(p, g, preds, n) && AllFixed(p, g, preds, m) && m.defs == n.defs && SameSettled(p, n, m, settled)
    requires Supported(p, g, preds, settled, c, x) && c < |g.starts| && x < p.slots
    ensures Candidates(m.outs, preds, c, x) == Candidates(n.outs, preds, c, x)
  {
    forall d: nat | d in preds[c]
      ensures d < |n.outs| && d < |m.outs| && |n.outs[d]| == p.slots == |m.outs[d]| && m.outs[d][x] == n.outs[d][x]
    {
      PredInRange(g, preds, c, d);
      assert RowOk(p, n.values, n.outs[d]) && RowOk(p, m.values, m.outs[d]);
      assert RowOk(p, n.values, n.ins[d]) && RowOk(p, m.values, m.ins[d]);
      assert TrackedAt(p, g, preds, n, d, x) && TrackedAt(p, g, preds, m, d, x);
      assert FixedAt(p, g, preds, n, d, x) && FixedAt(p, g, preds, m, d, x);
      assert !WritesIn(p, g, d, x) ==> (d, x) in settled;
      hide InOrigin;
      hide Barren;
      hide Fed;
      hide WritesIn;
      hide OwnDef;
    }
    hide Tracked;
    hide AllFixed;
    assert forall u: nat :: u in Candidates(m.outs, preds, c, x) <==> u in Candidates(n.outs, preds, c, x);
  }

  lemma MergedLater(n: Naming, m: Naming, preds: seq<seq<nat>>, b: nat, x: nat, v: nat)
    requires b < |preds| && Candidates(m.outs, preds, b, x) == Candidates(n.outs, preds, b, x)
    requires forall k :: k in n.phis ==> k in m.phis && m.phis[k] == n.phis[k]
    requires Merged(n, preds, n.outs, b, x, v)
    ensures Merged(m, preds, m.outs, b, x, v)
  {
    hide Candidates;
  }

  lemma VisitSettled(p: RuntimeProgram, g: BlockGraph, preds: seq<seq<nat>>, n: Naming, m: Naming,
      settled: set<(nat, nat)>, b: nat)
    requires AllFixed(p, g, preds, n) && WellNamed(p, g, m) && Visit(p, g, preds, n, m, b)
      && SettledOk(p, g, preds, n, settled)
    ensures AllFixed(p, g, preds, m) && SettledOk(p, g, preds, m, settled) && SameSettled(p, n, m, settled)
  {
    FixedStays(p, g, preds, n, m, b);
    forall x: nat | x < p.slots && (b, x) in settled
      ensures m.ins[b][x] == n.ins[b][x]
    {
      assert InTable(p, g, (b, x)) && Anchored(p, g, preds, n, settled, (b, x).0, (b, x).1);
      SettledHere(p, g, preds, n, m, settled, b, x);
    }
    SettledRows(p, g, preds, n, m, settled, b);
    forall c: nat, x: nat | (c, x) in settled
      ensures InTable(p, g, (c, x)) && Anchored(p, g, preds, m, settled, c, x)
    {
      assert InTable(p, g, (c, x)) && Anchored(p, g, preds, n, settled, (c, x).0, (c, x).1);
      StillAnchored(p, g, preds, n, m, settled, b, c, x);
    }
    SameBase(p, g, preds, n, m, settled, b);
  }

  lemma SettledRows(p: RuntimeProgram, g: BlockGraph, preds: seq<seq<nat>>, n: Naming, m: Naming,
      settled: set<(nat, nat)>, b: nat)
    requires WellNamed(p, g, n) && WellNamed(p, g, m) && DefsTotal(p, n.defs) && Visit(p, g, preds, n, m, b)
    requires forall x: nat :: x < p.slots && (b, x) in settled ==> m.ins[b][x] == n.ins[b][x]
    ensures SameSettled(p, n, m, settled)
  {
    hide Merged;
    hide RowAt;
    forall k | k in settled && k.0 < |n.ins| && k.1 < |n.ins[k.0]|
      ensures k.1 < |m.ins[k.0]| && m.ins[k.0][k.1] == n.ins[k.0][k.1]
    {
      assert RowOk(p, n.values, n.ins[k.0]) && RowOk(p, m.values, m.ins[k.0]);
      assert k == (k.0, k.1);
    }
  }

  lemma StillAnchored(p: RuntimeProgram, g: BlockGraph, preds: seq<seq<nat>>, n: Naming, m: Naming,
      settled: set<(nat, nat)>, b: nat, c: nat, x: nat)
    requires AllFixed(p, g, preds, n) && AllFixed(p, g, preds, m) && Visit(p, g, preds, n, m, b)
      && SameSettled(p, n, m, settled)
    requires (c, x) in settled && c < |g.starts| && x < p.slots && Anchored(p, g, preds, n, settled, c, x)
    ensures Anchored(p, g, preds, m, settled, c, x)
  {
    assert RowOk(p, n.values, n.ins[c]) && RowOk(p, m.values, m.ins[c]);
    assert m.ins[c][x] == n.ins[c][x] by {
      assert (c, x).0 == c && (c, x).1 == x;
    }
    if Supported(p, g, preds, settled, c, x) && Merged(n, preds, n.outs, c, x, n.ins[c][x]) {
      SameCandidates(p, g, preds, n, m, settled, c, x);
      MergedLater(n, m, preds, c, x, n.ins[c][x]);
    }
    hide AllFixed;
    hide Merged;
    hide Carried;
    hide Supported;
  }

  lemma SameBase(p: RuntimeProgram, g: BlockGraph, preds: seq<seq<nat>>, n: Naming, m: Naming, settled: set<(nat, nat)>,
      b: nat)
    requires WellNamed(p, g, n) && WellNamed(p, g, m) && DefsTotal(p, n.defs) && Visit(p, g, preds, n, m, b)
    requires forall x: nat :: x < p.slots ==> (m.ins[b][x] != x <==> n.ins[b][x] != x)
    requires SettledOk(p, g, preds, n, settled)
    ensures forall c: nat, x: nat ::
      c < |g.starts| && x < p.slots && (m.ins[c][x] == x || NeverCarried(p, g, preds, c, x)) ==> (c, x) in settled
  {
    hide Anchored;
    hide NeverCarried;
    hide Merged;
    hide RowAt;
    forall c: nat, x: nat | c < |g.starts| && x < p.slots && (m.ins[c][x] == x || NeverCarried(p, g, preds, c, x))
      ensures (c, x) in settled
    {
      assert m.ins[c][x] == x ==> n.ins[c][x] == x;
    }
  }

  // ----- something is always ready to settle -----

  ghost function Carriers(p: RuntimeProgram, g: BlockGraph, preds: seq<seq<nat>>, b: nat, x: nat): set<nat> {
    set a: nat | a < |g.starts| && IsCarrier(p, g, preds, a, b, x)
  }

  ghost predicate IsCarrier(p: RuntimeProgram, g: BlockGraph, preds: seq<seq<nat>>, a: nat, b: nat, x: nat) {
    exists r: nat :: Carried(p, g, preds, a, b, x, r)
  }

  /** A block that its own name is carried to is barren. */
  lemma SelfIsBarren(p: RuntimeProgram, g: BlockGraph, preds: seq<seq<nat>>, a: nat, x: nat)
    requires !WritesIn(p, g, a, x) && IsCarrier(p, g, preds, a, a, x)
    ensures Barren(p, g, preds, a, x)
  {
    hide WritesIn;
    var r: nat :| Carried(p, g, preds, a, a, x, r);
    assert Circle(p, g, preds, a, a, x, r, r);
  }

  lemma {:induction false} CarrierInRange(p: RuntimeProgram, g: BlockGraph, preds: seq<seq<nat>>, a: nat, b: nat,
      x: nat, r: nat)
    requires PredsOk(g, preds) && Carried(p, g, preds, a, b, x, r)
    ensures a < |g.starts|
    decreases r
  {
    hide WritesIn;
    var c := preds[b][0];
    assert c in preds[b];
    PredInRange(g, preds, b, c);
    if c != a {
      CarrierInRange(p, g, preds, a, c, x, r - 1);
    }
  }

  /** A name that has not settled comes from fewer owners at its owner. */
  lemma FewerCarriers(p: RuntimeProgram, g: BlockGraph, preds: seq<seq<nat>>, n: Naming, a: nat, b: nat, x: nat, r: nat)
    requires Tracked(p, g, preds, n) && a < |g.starts| && x < p.slots && n.ins[a][x] != x && !WritesIn(p, g, a, x)
    requires Carried(p, g, preds, a, b, x, r)
    ensures |Carriers(p, g, preds, a, x)| < |Carriers(p, g, preds, b, x)|
  {
    assert TrackedAt(p, g, preds, n, a, x);
    hide Tracked;
    var few, many := Carriers(p, g, preds, a, x), Carriers(p, g, preds, b, x);
    forall d | d in few
      ensures d in many
    {
      var q: nat :| Carried(p, g, preds, d, a, x, q);
      CarriedTransitive(p, g, preds, d, a, b, x, q, r);
    }
    if IsCarrier(p, g, preds, a, a, x) {
      SelfIsBarren(p, g, preds, a, x);
    }
    hide Carried;
    assert a in many && a !in few;
    SmallerSet(few, many, a);
  }

  lemma SmallerSet(few: set<nat>, many: set<nat>, a: nat)
    requires few <= many && a in many && a !in few
    ensures |few| < |many|
  {
    assert many == few + (many - few);
    assert a in many - few;
  }

  lemma {:induction false} FewestCarriers(p: RuntimeProgram, g: BlockGraph, preds: seq<seq<nat>>, blocks: set<nat>,
      x: nat) returns (b: nat)
    requires blocks != {}
    ensures b in blocks && forall c :: c in blocks ==> |Carriers(p, g, preds, b, x)| <= |Carriers(p, g, preds, c, x)|
  {
    hide Carriers;
    var first :| first in blocks;
    b := first;
    if blocks - {first} != {} {
      var c := FewestCarriers(p, g, preds, blocks - {first}, x);
      if |Carriers(p, g, preds, c, x)| < |Carriers(p, g, preds, first, x)| {
        b := c;
      }
    }
    assert forall c :: c in blocks ==> c == first || c in blocks - {first};
  }

  ghost predicate Unsettled(p: RuntimeProgram, g: BlockGraph, settled: set<(nat, nat)>, b: nat, x: nat) {
    b < |g.starts| && x < p.slots && (b, x) !in settled
  }

  /** Back along predecessors that have not settled, towards an owner that has. */
  lemma {:induction false} WalkBack(p: RuntimeProgram, g: BlockGraph, preds: seq<seq<nat>>, settled: set<(nat, nat)>,
      a: nat, b: nat, x: nat, r: nat) returns (c: nat)
    requires PredsOk(g, preds) && Unsettled(p, g, settled, b, x) && Carried(p, g, preds, a, b, x, r)
    requires WritesIn(p, g, a, x) || !Unsettled(p, g, settled, a, x)
    ensures Unsettled(p, g, settled, c, x) && Supported(p, g, preds, settled, c, x)
    decreases r
  {
    hide WritesIn;
    if Supported(p, g, preds, settled, b, x) {
      c := b;
    } else {
      var d: nat :| d in preds[b] && !WritesIn(p, g, d, x) && (d, x) !in settled;
      PredInRange(g, preds, b, d);
      c := WalkBack(p, g, preds, settled, a, d, x, r - 1);
    }
  }

  lemma ReadyExists(p: RuntimeProgram, g: BlockGraph, preds: seq<seq<nat>>, n: Naming, settled: set<(nat, nat)>, x: nat,
      some: nat) returns (c: nat)
    requires AllFixed(p, g, preds, n) && SettledOk(p, g, preds, n, settled) && Unsettled(p, g, settled, some, x)
    ensures Unsettled(p, g, settled, c, x) && Supported(p, g, preds, settled, c, x)
  {
    var blocks := set b: nat | b < |g.starts| && Unsettled(p, g, settled, b, x);
    assert some in blocks;
    var b := FewestCarriers(p, g, preds, blocks, x);
    assert !NeverCarried(p, g, preds, b, x);
    var a: nat, r: nat :| Carried(p, g, preds, a, b, x, r);
    CarrierInRange(p, g, preds, a, b, x, r);
    if !WritesIn(p, g, a, x) && Unsettled(p, g, settled, a, x) {
      assert a in blocks;
      assert n.ins[a][x] != x;
      FewerCarriers(p, g, preds, n, a, b, x, r);
      assert false;
    }
    c := WalkBack(p, g, preds, settled, a, b, x, r);
  }

  // ----- a whole pass -----

  ghost predicate AllIn(p: RuntimeProgram, g: BlockGraph, settled: set<(nat, nat)>) {
    forall b: nat, x: nat :: b < |g.starts| && x < p.slots ==> (b, x) in settled
  }

  ghost predicate MergedAt(p: RuntimeProgram, preds: seq<seq<nat>>, n: Naming, b: nat, x: nat) {
    b < |preds| && b < |n.ins| && x < |n.ins[b]| && Merged(n, preds, n.outs, b, x, n.ins[b][x])
  }

  /** Where the predecessors have settled, the names on entry to the first `k` blocks are merged from them. */
  ghost predicate MergedBelow(p: RuntimeProgram, g: BlockGraph, preds: seq<seq<nat>>, n: Naming,
      settled: set<(nat, nat)>, k: nat)
  {
    forall b: nat, x: nat :: b < k && b < |g.starts| && x < p.slots && Supported(p, g, preds, settled, b, x) ==>
      MergedAt(p, preds, n, b, x)
  }

  ghost predicate Settling(p: RuntimeProgram, g: BlockGraph, preds: seq<seq<nat>>, n: Naming,
      settled: set<(nat, nat)>)
  {
    AllFixed(p, g, preds, n) && SettledOk(p, g, preds, n, settled)
  }

  /** What holds after the first `k` blocks of a pass that started from `start`. */
  ghost predicate PassedBy(p: RuntimeProgram, g: BlockGraph, preds: seq<seq<nat>>, start: Naming, n: Naming,
      settled: set<(nat, nat)>, k: nat)
  {
    && Tracked(p, g, preds, start) && Tracked(p, g, preds, n) && OutsGrow(p, start, n)
    && (SameMoved(p, start, n) ==> FixedBelow(p, g, preds, n, k))
    && (Settling(p, g, preds, start, settled) ==>
         && Settling(p, g, preds, n, settled) && MergedBelow(p, g, preds, n, settled, k)
         && (AllIn(p, g, settled) ==> n.ins == start.ins && n.outs == start.outs))
  }

  lemma GrowTransitive(p: RuntimeProgram, a: Naming, b: Naming, c: Naming)
    requires OutsGrow(p, a, b) && OutsGrow(p, b, c)
    ensures OutsGrow(p, a, c)
    ensures SameMoved(p, a, c) ==> SameMoved(p, a, b) && SameMoved(p, b, c)
  {
    hide OutMoved;
  }

  lemma StartPassed(p: RuntimeProgram, g: BlockGraph, preds: seq<seq<nat>>, n: Naming, settled: set<(nat, nat)>)
    requires Tracked(p, g, preds, n)
    ensures PassedBy(p, g, preds, n, n, settled, 0)
  {
    hide Tracked;
    hide FixedAt;
    hide Settling;
  }

  lemma VisitUnchanged(p: RuntimeProgram, g: BlockGraph, preds: seq<seq<nat>>, n: Naming, m: Naming,
      settled: set<(nat, nat)>, b: nat)
    requires AllFixed(p, g, preds, n) && AllFixed(p, g, preds, m) && Visit(p, g, preds, n, m, b)
      && SameSettled(p, n, m, settled) && AllIn(p, g, settled)
    ensures m.ins == n.ins && m.outs == n.outs
  {
    assert RowOk(p, n.values, n.ins[b]) && RowOk(p, m.values, m.ins[b]) && RowOk(p, n.values, n.outs[b])
      && RowOk(p, m.values, m.outs[b]);
    forall x: nat | x < p.slots
      ensures m.ins[b][x] == n.ins[b][x] && m.outs[b][x] == n.outs[b][x]
    {
      assert (b, x) in settled && (b, x).0 == b && (b, x).1 == x;
      assert TrackedAt(p, g, preds, n, b, x) && TrackedAt(p, g, preds, m, b, x);
      assert FixedAt(p, g, preds, n, b, x) && FixedAt(p, g, preds, m, b, x);
      hide InOrigin;
      hide Barren;
      hide Fed;
      hide WritesIn;
      hide OwnDef;
      hide Merged;
    }
    hide AllFixed;
    hide Merged;
    hide RowAt;
    assert m.ins[b] == n.ins[b];
    assert m.outs[b] == n.outs[b];
  }

  lemma MergedMore(p: RuntimeProgram, g: BlockGraph, preds: seq<seq<nat>>, n: Naming, m: Naming,
      settled: set<(nat, nat)>, b: nat)
    requires AllFixed(p, g, preds, n) && AllFixed(p, g, preds, m) && Visit(p, g, preds, n, m, b)
      && SameSettled(p, n, m, settled)
    requires MergedBelow(p, g, preds, n, settled, b)
    ensures MergedBelow(p, g, preds, m, settled, b + 1)
  {
    forall c: nat, x: nat | c < b + 1 && c < |g.starts| && x < p.slots && Supported(p, g, preds, settled, c, x)
      ensures MergedAt(p, preds, m, c, x)
    {
      SameCandidates(p, g, preds, n, m, settled, c, x);
      MergedStays(p, g, preds, n, m, b, c, x);
    }
  }

  lemma MergedStays(p: RuntimeProgram, g: BlockGraph, preds: seq<seq<nat>>, n: Naming, m: Naming, b: nat, c: nat,
      x: nat)
    requires WellNamed(p, g, n) && WellNamed(p, g, m) && DefsTotal(p, n.defs) && Visit(p, g, preds, n, m, b)
    requires c < |g.starts| && x < p.slots && Candidates(m.outs, preds, c, x) == Candidates(n.outs, preds, c, x)
    requires c != b ==> MergedAt(p, preds, n, c, x)
    ensures MergedAt(p, preds, m, c, x)
  {
    assert RowOk(p, m.values, m.ins[c]);
    if c == b {
      assert Merged(m, preds, n.outs, b, x, m.ins[b][x]);
      hide Candidates;
    } else {
      MergedLater(n, m, preds, c, x, n.ins[c][x]);
      hide Merged;
    }
    hide RowAt;
  }

  lemma PassVisit(p: RuntimeProgram, g: BlockGraph, preds: seq<seq<nat>>, start: Naming, n: Naming, m: Naming,
      settled: set<(nat, nat)>, b: nat)
    requires PassedBy(p, g, preds, start, n, settled, b) && WellNamed(p, g, m) && Visit(p, g, preds, n, m, b)
    ensures PassedBy(p, g, preds, start, m, settled, b + 1)
  {
    VisitTracked(p, g, preds, n, m, b);
    GrowTransitive(p, start, n, m);
    if SameMoved(p, start, m) {
      FixedMore(p, g, preds, n, m, b);
    }
    if Settling(p, g, preds, start, settled) {
      VisitSettled(p, g, preds, n, m, settled, b);
      MergedMore(p, g, preds, n, m, settled, b);
      if AllIn(p, g, settled) {
        VisitUnchanged(p, g, preds, n, m, settled, b);
      }
    }
    hide Tracked;
    hide OutsGrow;
    hide FixedBelow;
    hide SettledOk;
    hide MergedBelow;
    hide AllIn;
    hide Visit;
  }

  // ----- counting -----

  ghost function Cells(b: nat, slots: nat): (r: set<(nat, nat)>)
    ensures |r| == slots && forall k :: k in r <==> k.0 == b && k.1 < slots
  {
    if slots == 0 then {}
    else
      var rest := Cells(b, slots - 1);
      assert (b, slots - 1) !in rest;
      rest + {(b, slots - 1)}
  }

  ghost function Table(blocks: nat, slots: nat): (r: set<(nat, nat)>)
    ensures |r| == blocks * slots && forall k :: k in r <==> k.0 < blocks && k.1 < slots
  {
    if blocks == 0 then {}
    else
      var rest, last := Table(blocks - 1, slots), Cells(blocks - 1, slots);
      assert rest !! last;
      assert |rest + last| == |rest| + |last|;
      assert (blocks - 1) * slots + slots == blocks * slots;
      rest + last
  }

  ghost function MovedCells(p: RuntimeProgram, g: BlockGraph, n: Naming): set<(nat, nat)> {
    set k | k in Table(|g.starts|, p.slots) && OutMoved(n, k.0, k.1)
  }

  lemma SizeWithin(a: set<(nat, nat)>, b: set<(nat, nat)>)
    requires a <= b
    ensures |a| <= |b| && (|a| == |b| ==> a == b)
  {
    assert b == a + (b - a);
  }

  lemma MovedGrow(p: RuntimeProgram, g: BlockGraph, n: Naming, m: Naming)
    requires OutsGrow(p, n, m) && |n.outs| == |g.starts|
    ensures |MovedCells(p, g, n)| <= |MovedCells(p, g, m)| <= |g.starts| * p.slots
    ensures |MovedCells(p, g, n)| == |MovedCells(p, g, m)| ==> SameMoved(p, n, m)
  {
    hide Table;
    hide OutMoved;
    var a, b := MovedCells(p, g, n), MovedCells(p, g, m);
    SizeWithin(a, b);
    SizeWithin(b, Table(|g.starts|, p.slots));
    if a == b {
      forall c: nat, x: nat | c < |m.outs| && x < p.slots && OutMoved(m, c, x)
        ensures OutMoved(n, c, x)
      {
        assert (c, x) in Table(|g.starts|, p.slots);
        assert (c, x) in b;
      }
    }
    hide OutMoved;
  }

  /** The names that stay as they are because nothing else can come. */
  ghost function Base(p: RuntimeProgram, g: BlockGraph, preds: seq<seq<nat>>, n: Naming): set<(nat, nat)> {
    set k | k in Table(|g.starts|, p.slots) && StaysPut(p, g, preds, n, k.0, k.1)
  }

  ghost predicate StaysPut(p: RuntimeProgram, g: BlockGraph, preds: seq<seq<nat>>, n: Naming, b: nat, x: nat) {
    b < |n.ins| && x < |n.ins[b]| && (n.ins[b][x] == x || NeverCarried(p, g, preds, b, x))
  }

  lemma BaseSettled(p: RuntimeProgram, g: BlockGraph, preds: seq<seq<nat>>, n: Naming)
    requires AllFixed(p, g, preds, n)
    ensures Settling(p, g, preds, n, Base(p, g, preds, n)) && |Base(p, g, preds, n)| <= |g.starts| * p.slots
  {
    hide Table;
    hide Tracked;
    hide FixedBelow;
    hide NeverCarried;
    hide Supported;
    hide Merged;
    var settled := Base(p, g, preds, n);
    SizeWithin(settled, Table(|g.starts|, p.slots));
    TrackedRows(p, g, preds, n);
    forall k | k in settled
      ensures InTable(p, g, k) && Anchored(p, g, preds, n, settled, k.0, k.1)
    {}
    forall b: nat, x: nat | b < |g.starts| && x < p.slots && (n.ins[b][x] == x || NeverCarried(p, g, preds, b, x))
      ensures (b, x) in settled
    {
      assert (b, x) in Table(|g.starts|, p.slots);
      assert StaysPut(p, g, preds, n, (b, x).0, (b, x).1);
    }
  }

  lemma TrackedRows(p: RuntimeProgram, g: BlockGraph, preds: seq<seq<nat>>, n: Naming)
    requires Tracked(p, g, preds, n)
    ensures RowsOk(p, g, n.values, n.ins)
    ensures |n.ins| == |g.starts| && forall b: nat :: b < |g.starts| ==> |n.ins[b]| == p.slots
  {
    forall b: nat | b < |g.starts|
      ensures |n.ins[b]| == p.slots
    {
      assert RowOk(p, n.values, n.ins[b]);
    }
    hide TrackedAt;
  }

  ghost function Ready(p: RuntimeProgram, g: BlockGraph, preds: seq<seq<nat>>,
      settled: set<(nat, nat)>): set<(nat, nat)>
  {
    set k | k in Table(|g.starts|, p.slots) && Supported(p, g, preds, settled, k.0, k.1)
  }

  /** After a pass everything that was ready has settled; if nothing was, everything had. */
  lemma SettledMore(p: RuntimeProgram, g: BlockGraph, preds: seq<seq<nat>>, start: Naming, n: Naming,
      settled: set<(nat, nat)>)
    requires Settling(p, g, preds, start, settled) && Settling(p, g, preds, n, settled)
      && MergedBelow(p, g, preds, n, settled, |g.starts|)
    ensures var more := settled + Ready(p, g, preds, settled);
      Settling(p, g, preds, n, more) && |more| <= |g.starts| * p.slots && (|settled| < |more| || AllIn(p, g, settled))
  {
    hide Table;
    hide AllFixed;
    var more := settled + Ready(p, g, preds, settled);
    ReadySettled(p, g, preds, n, settled, more);
    InTables(p, g, preds, start, settled);
    SizeWithin(more, Table(|g.starts|, p.slots));
    SizeWithin(settled, more);
    if !AllIn(p, g, settled) {
      var b: nat, x: nat :| b < |g.starts| && x < p.slots && (b, x) !in settled;
      var c := ReadyExists(p, g, preds, start, settled, x, b);
      hide SettledOk;
      hide Supported;
      assert (c, x) in Table(|g.starts|, p.slots);
      assert Supported(p, g, preds, settled, (c, x).0, (c, x).1);
      assert (c, x) in more;
    }
    hide SettledOk;
  }

  lemma InTables(p: RuntimeProgram, g: BlockGraph, preds: seq<seq<nat>>, n: Naming, settled: set<(nat, nat)>)
    requires Settling(p, g, preds, n, settled)
    ensures settled <= Table(|g.starts|, p.slots)
  {
    hide Table;
    hide AllFixed;
    hide Anchored;
    forall k | k in settled
      ensures k in Table(|g.starts|, p.slots)
    {
      assert InTable(p, g, k);
    }
  }

  lemma ReadySettled(p: RuntimeProgram, g: BlockGraph, preds: seq<seq<nat>>, n: Naming, settled: set<(nat, nat)>,
      more: set<(nat, nat)>)
    requires Settling(p, g, preds, n, settled) && MergedBelow(p, g, preds, n, settled, |g.starts|)
    requires more == settled + Ready(p, g, preds, settled)
    ensures SettledOk(p, g, preds, n, more)
  {
    TrackedRows(p, g, preds, n);
    hide Table;
    hide AllFixed;
    hide Anchored;
    hide Supported;
    hide NeverCarried;
    BaseMore(p, g, preds, n, settled, more);
    hide HasBase;
    forall k | k in more
      ensures InTable(p, g, k) && Anchored(p, g, preds, n, more, k.0, k.1)
    {
      if k in settled {
        assert InTable(p, g, k);
        AnchoredMore(p, g, preds, n, settled, more, k.0, k.1);
      } else {
        assert k in Ready(p, g, preds, settled) && k in Table(|g.starts|, p.slots);
        NewlyAnchored(p, g, preds, n, settled, more, k.0, k.1);
      }
    }
  }

  lemma BaseMore(p: RuntimeProgram, g: BlockGraph, preds: seq<seq<nat>>, n: Naming, settled: set<(nat, nat)>,
      more: set<(nat, nat)>)
    requires RowsOk(p, g, n.values, n.ins) && HasBase(p, g, preds, n, settled) && settled <= more
    ensures HasBase(p, g, preds, n, more)
  {
    hide NeverCarried;
  }

  lemma AnchoredMore(p: RuntimeProgram, g: BlockGraph, preds: seq<seq<nat>>, n: Naming, settled: set<(nat, nat)>,
      more: set<(nat, nat)>, b: nat, x: nat)
    requires b < |n.ins| && x < |n.ins[b]| && Anchored(p, g, preds, n, settled, b, x) && settled <= more
    ensures Anchored(p, g, preds, n, more, b, x)
  {
    hide NeverCarried;
    hide Merged;
    SupportedMore(p, g, preds, settled, more, b, x);
    hide Supported;
  }

  lemma NewlyAnchored(p: RuntimeProgram, g: BlockGraph, preds: seq<seq<nat>>, n: Naming, settled: set<(nat, nat)>,
      more: set<(nat, nat)>, b: nat, x: nat)
    requires b < |g.starts| && x < p.slots && b < |n.ins| && x < |n.ins[b]| && settled <= more
    requires MergedBelow(p, g, preds, n, settled, |g.starts|) && Supported(p, g, preds, settled, b, x)
    ensures Anchored(p, g, preds, n, more, b, x)
  {
    hide NeverCarried;
    SupportedMore(p, g, preds, settled, more, b, x);
    hide Supported;
    assert MergedAt(p, preds, n, b, x);
    hide Merged;
  }

  lemma SupportedMore(p: RuntimeProgram, g: BlockGraph, preds: seq<seq<nat>>, settled: set<(nat, nat)>,
      more: set<(nat, nat)>, b: nat, x: nat)
    requires settled <= more
    ensures Supported(p, g, preds, settled, b, x) ==> Supported(p, g, preds, more, b, x)
  {
    hide WritesIn;
  }

  /** How many passes can still change something. */
  ghost function Left(p: RuntimeProgram, g: BlockGraph, n: Naming, fixed: bool, settled: set<(nat, nat)>): int {
    var cells := |g.starts| * p.slots;
    if fixed then cells - |settled| + 1 else 2 * cells + 2 - |MovedCells(p, g, n)|
  }

  ghost predicate Progress(p: RuntimeProgram, g: BlockGraph, preds: seq<seq<nat>>, n: Naming, fixed: bool,
      settled: set<(nat, nat)>)
  {
    Tracked(p, g, preds, n) && Left(p, g, n, fixed, settled) >= 1 && (fixed ==> Settling(p, g, preds, n, settled))
  }

  /** A pass that changes something leaves fewer passes that can. */
  lemma NextProgress(p: RuntimeProgram, g: BlockGraph, preds: seq<seq<nat>>, n: Naming, m: Naming, fixed: bool,
      settled: set<(nat, nat)>)
      returns (fixed': bool, settled': set<(nat, nat)>)
    requires Progress(p, g, preds, n, fixed, settled) && PassedBy(p, g, preds, n, m, settled, |g.starts|)
    requires Settling(p, g, preds, n, settled) ==> !AllIn(p, g, settled)
    ensures Progress(p, g, preds, m, fixed', settled')
    ensures Left(p, g, m, fixed', settled') < Left(p, g, n, fixed, settled)
  {
    hide FixedBelow;
    hide SettledOk;
    hide MergedBelow;
    hide MovedCells;
    hide OutsGrow;
    TrackedOuts(p, g, preds, n);
    if fixed {
      SettledMore(p, g, preds, n, m, settled);
      fixed', settled' := true, settled + Ready(p, g, preds, settled);
      hide Ready;
      hide Tracked;
    } else {
      MovedGrow(p, g, n, m);
      if SameMoved(p, n, m) {
        BaseSettled(p, g, preds, m);
        fixed', settled' := true, Base(p, g, preds, m);
        hide Base;
      } else {
        fixed', settled' := false, settled;
      }
      hide Tracked;
      hide Settling;
    }
  }

  lemma TrackedOuts(p: RuntimeProgram, g: BlockGraph, preds: seq<seq<nat>>, n: Naming)
    requires Tracked(p, g, preds, n)
    ensures |n.outs| == |g.starts|
  {
    hide TrackedAt;
  }

  lemma StartProgress(p: RuntimeProgram, g: BlockGraph, preds: seq<seq<nat>>, n: Naming)
    requires g.Valid(p) && PredsOk(g, preds) && WellNamed(p, g, n) && DefsTotal(p, n.defs)
    requires forall b: nat, x: nat :: b < |g.starts| && x < p.slots ==> n.ins[b][x] == x && n.outs[b][x] == x
    ensures Progress(p, g, preds, n, false, {}) && Left(p, g, n, false, {}) <= 2 * |g.starts| * p.slots + 2
  {
    StartTracked(p, g, preds, n);
    hide Tracked;
    hide MovedCells;
    hide WellNamed;
    TrackedOuts(p, g, preds, n);
    MovedGrow(p, g, n, n);
    assert 2 * (|g.starts| * p.slots) == 2 * |g.starts| * p.slots;
  }
}
