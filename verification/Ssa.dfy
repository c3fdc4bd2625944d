/** `build_value_ssa`: a name for the content of every slot at every point of the program. */
module Ssa {
  import opened Words
  import opened Ir
  import opened Semantics
  import opened Blocks

  datatype SSAValueDef = Entry | Phi(block: nat) | Instr(instr_index: nat)

  /** The identity of a value is its index. */
  datatype SSAValue = SSAValue(slot: nat, def: SSAValueDef)

  type Row = seq<nat>

  /** The state of the construction: the values, the values of instruction results and of phis, and for
      every block the value each slot has on entry and on exit. */
  datatype Naming = Naming(values: seq<SSAValue>, defs: map<(nat, nat), nat>, phis: map<(nat, nat), nat>, ins: seq<Row>,
      outs: seq<Row>)

  // ----- well-formed names -----

  predicate WritesSlot(p: RuntimeProgram, i: nat, x: nat) {
    i < |p.instrs| && x in WriteSlots(p.instrs[i])
  }

  ghost predicate DefsOk(p: RuntimeProgram, values: seq<SSAValue>, defs: map<(nat, nat), nat>) {
    forall i: nat, x: nat :: WritesSlot(p, i, x) ==>
      (i, x) in defs && defs[(i, x)] < |values| && values[defs[(i, x)]] == SSAValue(x, Instr(i))
  }

  ghost predicate PhisOk(p: RuntimeProgram, values: seq<SSAValue>, phis: map<(nat, nat), nat>) {
    forall k :: k in phis ==> k.1 < p.slots && phis[k] < |values| && values[phis[k]] == SSAValue(k.1, Phi(k.0))
  }

  /** Every value is in the tables, so no two values have the same slot and definition. */
  ghost predicate Listed(p: RuntimeProgram, values: seq<SSAValue>, defs: map<(nat, nat), nat>,
      phis: map<(nat, nat), nat>)
  {
    forall v :: 0 <= v < |values| ==> ListedValue(p, values[v], v, defs, phis)
  }

  ghost predicate ListedValue(p: RuntimeProgram, value: SSAValue, v: nat, defs: map<(nat, nat), nat>,
      phis: map<(nat, nat), nat>)
  {
    match value.def
    case Entry => v == value.slot && v < p.slots
    case Instr(i) => WritesSlot(p, i, value.slot) && (i, value.slot) in defs && defs[(i, value.slot)] == v
    case Phi(b) => (b, value.slot) in phis && phis[(b, value.slot)] == v
  }

  ghost predicate EntriesOk(p: RuntimeProgram, values: seq<SSAValue>) {
    p.slots <= |values| && forall x :: 0 <= x < p.slots ==> values[x] == SSAValue(x, Entry)
  }

  /** A row names, for every slot, a value of that slot. */
  ghost predicate RowOk(p: RuntimeProgram, values: seq<SSAValue>, row: Row) {
    |row| == p.slots && forall x :: 0 <= x < p.slots ==> row[x] < |values| && values[row[x]].slot == x
  }

  ghost predicate RowsOk(p: RuntimeProgram, g: BlockGraph, values: seq<SSAValue>, rows: seq<Row>) {
    |rows| == |g.starts| && forall b :: 0 <= b < |rows| ==> RowOk(p, values, rows[b])
  }

  ghost predicate TablesOk(p: RuntimeProgram, n: Naming) {
    && EntriesOk(p, n.values) && DefsOk(p, n.values, n.defs) && PhisOk(p, n.values, n.phis)
    && Listed(p, n.values, n.defs, n.phis)
  }

  ghost predicate WellNamed(p: RuntimeProgram, g: BlockGraph, n: Naming) {
    TablesOk(p, n) && RowsOk(p, g, n.values, n.ins) && RowsOk(p, g, n.values, n.outs)
  }

  // ----- what a pass computes -----

  /** The values that may flow into slot `x` of block `b`. */
  function Candidates(outs: seq<Row>, preds: seq<seq<nat>>, b: nat, x: nat): set<nat>
    requires b < |preds|
  {
    (set c | c in preds[b] && c < |outs| && x < |outs[c]| :: outs[c][x])
      + (if b == 0 || preds[b] == [] then {x} else {})
  }

  /** The inputs of the phi of slot `x` in block `b`: the entry value, if the block can be entered from
      outside, and the value each predecessor ends with. */
  function PhiInputs(n: Naming, preds: seq<seq<nat>>, b: nat, x: nat): seq<nat>
    requires b < |preds|
  {
    (if b == 0 || preds[b] == [] then [x] else []) +
    seq(|preds[b]|, k requires 0 <= k < |preds[b]| =>
      if preds[b][k] < |n.outs| && x < |n.outs[preds[b][k]]| then n.outs[preds[b][k]][x] else x)
  }

  ghost predicate PredsOk(g: BlockGraph, preds: seq<seq<nat>>) {
    && |g.successors| == |g.starts| == |preds|
    && forall b: nat, c: nat {:trigger c in preds[b]} {:trigger b in g.successors[c]} ::
      b < |preds| ==> (c in preds[b] <==> c < |g.successors| && b in g.successors[c])
  }

  /** The names after instruction `i`. */
  function ApplyOne(p: RuntimeProgram, defs: map<(nat, nat), nat>, row: Row, i: nat): (r: Row)
    requires DefsTotal(p, defs)
    ensures |r| == |row|
  {
    seq(|row|, x requires 0 <= x < |row| => if WritesSlot(p, i, x) then defs[(i, x)] else row[x])
  }

  ghost predicate DefsTotal(p: RuntimeProgram, defs: map<(nat, nat), nat>) {
    forall i: nat, x: nat :: WritesSlot(p, i, x) ==> (i, x) in defs
  }

  /** The names just before instruction `i` of a block that starts at `start` with the names `row`. */
  ghost function RowAt(p: RuntimeProgram, defs: map<(nat, nat), nat>, row: Row, start: nat, i: nat): (r: Row)
    requires DefsTotal(p, defs)
    ensures |r| == |row|
  {
    if i <= start then row else ApplyOne(p, defs, RowAt(p, defs, row, start, i - 1), i - 1)
  }

  /** Slot `x` enters block `b` under the one name all candidates share, or under the phi of `b`. */
  ghost predicate Merged(n: Naming, preds: seq<seq<nat>>, outs: seq<Row>, b: nat, x: nat, v: nat)
    requires b < |preds|
  {
    if exists u :: Candidates(outs, preds, b, x) == {u} then Candidates(outs, preds, b, x) == {v}
    else (b, x) in n.phis && v == n.phis[(b, x)]
  }

  /** A pass over the blocks leaves this naming unchanged. */
  ghost predicate Stable(p: RuntimeProgram, g: BlockGraph, preds: seq<seq<nat>>, n: Naming) {
    && g.Valid(p) && PredsOk(g, preds) && WellNamed(p, g, n)
    && forall b :: 0 <= b < |g.starts| ==> StableBlock(p, g, preds, n, b)
  }

  ghost predicate StableBlock(p: RuntimeProgram, g: BlockGraph, preds: seq<seq<nat>>, n: Naming, b: nat)
    requires g.Valid(p) && PredsOk(g, preds) && WellNamed(p, g, n) && b < |g.starts|
  {
    && (forall x :: 0 <= x < p.slots ==> Merged(n, preds, n.outs, b, x, n.ins[b][x]))
    && DefsTotal(p, n.defs)
    && n.outs[b] == RowAt(p, n.defs, n.ins[b], g.starts[b], g.End(b))
  }
}
