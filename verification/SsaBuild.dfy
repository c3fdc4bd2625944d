/** The construction of `build_value_ssa`. */
module SsaBuild {
  import opened Words
  import opened Ir
  import opened Semantics
  import opened Blocks
  import opened Ssa
  import opened SsaNaming
  import opened SsaConverge

  // ----- predecessors -----

  /** `invert_successors` */
  method InvertSuccessors(g: BlockGraph) returns (preds: seq<seq<nat>>)
    requires |g.successors| == |g.starts|
    ensures PredsOk(g, preds)
  {
    preds := [];
    for b := 0 to |g.starts|
      invariant |preds| == b
      invariant forall k: nat, c: nat :: k < b ==> (c in preds[k] <==> c < |g.successors| && k in g.successors[c])
    {
      var into: set<nat> := {};
      for c := 0 to |g.successors|
        invariant forall k: nat :: k in into <==> k < c && b in g.successors[k]
      {
        if b in g.successors[c] {
          into := into + {c};
        }
      }
      preds := preds + [SortedBelow(into, |g.successors|)];
    }
  }

  // ----- instruction results -----

  ghost predicate Numbered(p: RuntimeProgram, values: seq<SSAValue>, defs: map<(nat, nat), nat>, i: nat, x: nat) {
    (i, x) in defs && defs[(i, x)] < |values| && values[defs[(i, x)]] == SSAValue(x, Instr(i))
  }

  /** Exactly the results of the instructions before `i`, and those of `i` in `done`, have their numbers. */
  ghost predicate DefsBefore(p: RuntimeProgram, values: seq<SSAValue>, defs: map<(nat, nat), nat>, i: nat,
      done: seq<nat>)
  {
    && EntriesOk(p, values) && Listed(p, values, defs, map[])
    && (forall k: nat, x: nat :: WritesSlot(p, k, x) && (k < i || (k == i && x in done)) ==>
      Numbered(p, values, defs, k, x))
    && (forall k :: k in defs ==> k.0 < i || (k.0 == i && k.1 in done))
  }

  method NumberResults(p: RuntimeProgram) returns (values: seq<SSAValue>, defs: map<(nat, nat), nat>)
    requires InRange(p)
    ensures EntriesOk(p, values) && DefsOk(p, values, defs) && Listed(p, values, defs, map[])
  {
    values := seq(p.slots, x requires 0 <= x < p.slots => SSAValue(x, Entry));
    defs := map[];
    assert DefsBefore(p, values, defs, 0, []);
    for i := 0 to |p.instrs|
      invariant DefsBefore(p, values, defs, i, [])
    {
      values, defs := NumberInstr(p, values, defs, i);
    }
    forall i: nat, x: nat | WritesSlot(p, i, x)
      ensures Numbered(p, values, defs, i, x)
    {}
  }

  method NumberInstr(p: RuntimeProgram, values: seq<SSAValue>, defs: map<(nat, nat), nat>, i: nat)
      returns (values': seq<SSAValue>, defs': map<(nat, nat), nat>)
    requires InRange(p) && i < |p.instrs| && DefsBefore(p, values, defs, i, [])
    ensures DefsBefore(p, values', defs', i + 1, [])
  {
    assert InstrInRange(p, p.instrs[i]);
    var writes := SortedBelow((set x | x in WriteSlots(p.instrs[i])), p.slots);
    values', defs' := values, defs;
    assert writes[..0] == [];
    for k := 0 to |writes|
      invariant DefsBefore(p, values', defs', i, writes[..k])
    {
      hide DefsBefore;
      hide WriteSlots;
      hide SortedBelow;
      var slot := writes[k];
      assert slot in writes && WritesSlot(p, i, slot);
      assert slot !in writes[..k];
      AddResult(p, values', defs', i, writes[..k], slot);
      defs' := defs'[(i, slot) := |values'|];
      values' := values' + [SSAValue(slot, Instr(i))];
      assert writes[..k + 1] == writes[..k] + [slot];
    }
    assert writes[..|writes|] == writes;
    NextResult(p, values', defs', i, writes);
  }

  lemma NextResult(p: RuntimeProgram, values: seq<SSAValue>, defs: map<(nat, nat), nat>, i: nat, done: seq<nat>)
    requires DefsBefore(p, values, defs, i, done) && forall x: nat :: WritesSlot(p, i, x) ==> x in done
    ensures DefsBefore(p, values, defs, i + 1, [])
  {
    hide Listed;
    hide Numbered;
  }

  lemma AddResult(p: RuntimeProgram, values: seq<SSAValue>, defs: map<(nat, nat), nat>, i: nat, done: seq<nat>,
      slot: nat)
    requires DefsBefore(p, values, defs, i, done) && WritesSlot(p, i, slot) && slot !in done
    ensures DefsBefore(p, values + [SSAValue(slot, Instr(i))], defs[(i, slot) := |values|], i, done + [slot])
  {
    var values', defs' := values + [SSAValue(slot, Instr(i))], defs[(i, slot) := |values|];
    forall v | 0 <= v < |values'|
      ensures ListedValue(p, values'[v], v, defs', map[])
    {
      if v < |values| {
        assert ListedValue(p, values[v], v, defs, map[]);
      }
    }
    forall k: nat, x: nat | WritesSlot(p, k, x) && (k < i || (k == i && x in done + [slot]))
      ensures Numbered(p, values', defs', k, x)
    {
      if (k, x) != (i, slot) {
        assert Numbered(p, values, defs, k, x);
      }
    }
  }

  // ----- one pass -----

  /** `m` has all values and phis of `n`, and the same rows. */
  ghost predicate Extends(n: Naming, m: Naming) {
    && n.values <= m.values && m.defs == n.defs && m.ins == n.ins && m.outs == n.outs
    && (forall k :: k in n.phis ==> k in m.phis && m.phis[k] == n.phis[k])
  }

  /** Every phi of `m` is one of `n` or belongs to block `b`. */
  ghost predicate PhisFor(n: Naming, m: Naming, b: nat) {
    forall k :: k in m.phis ==> k in n.phis || k.0 == b
  }

  ghost predicate PhisWithin(n: Naming, count: nat) {
    forall k :: k in n.phis ==> k.0 < count
  }

  lemma AddPhi(p: RuntimeProgram, n: Naming, b: nat, x: nat)
    requires TablesOk(p, n) && (b, x) !in n.phis && x < p.slots
    ensures var m := n.(values := n.values + [SSAValue(x, Phi(b))], phis := n.phis[(b, x) := |n.values|]);
      TablesOk(p, m) && Extends(n, m)
  {
    var m := n.(values := n.values + [SSAValue(x, Phi(b))], phis := n.phis[(b, x) := |n.values|]);
    forall v | 0 <= v < |m.values|
      ensures ListedValue(p, m.values[v], v, m.defs, m.phis)
    {
      if v < |n.values| {
        assert ListedValue(p, n.values[v], v, n.defs, n.phis);
      }
    }
  }

  method PhiFor(p: RuntimeProgram, n: Naming, b: nat, x: nat) returns (m: Naming, v: nat)
    requires TablesOk(p, n) && x < p.slots
    ensures TablesOk(p, m) && Extends(n, m)
    ensures (b, x) in m.phis && v == m.phis[(b, x)] && v < |m.values| && m.values[v].slot == x
    ensures m != n ==> v >= |n.values|
    ensures PhisFor(n, m, b)
  {
    m := n;
    if (b, x) !in m.phis {
      AddPhi(p, m, b, x);
      m := m.(values := m.values + [SSAValue(x, Phi(b))], phis := m.phis[(b, x) := |m.values|]);
    }
    v := m.phis[(b, x)];
  }

  lemma ExtendedWellNamed(p: RuntimeProgram, g: BlockGraph, n: Naming, m: Naming)
    requires WellNamed(p, g, n) && Extends(n, m) && TablesOk(p, m)
    ensures WellNamed(p, g, m)
  {
    forall b | 0 <= b < |m.ins|
      ensures RowOk(p, m.values, m.ins[b]) && RowOk(p, m.values, m.outs[b])
    {
      assert RowOk(p, n.values, n.ins[b]) && RowOk(p, n.values, n.outs[b]);
    }
  }

  /** The names on entry to block `b`; a new phi wherever different values meet for the first time. */
  method MeetBlock(p: RuntimeProgram, g: BlockGraph, preds: seq<seq<nat>>, n: Naming, b: nat)
      returns (m: Naming, incoming: Row)
    requires g.Valid(p) && PredsOk(g, preds) && WellNamed(p, g, n) && b < |g.starts|
    ensures Extends(n, m) && TablesOk(p, m) && RowOk(p, m.values, incoming)
    ensures PartlyMet(m, preds, n.outs, b, incoming)
    ensures m != n ==> Fresh(n, incoming)
    ensures PhisFor(n, m, b)
  {
    m := n;
    incoming := [];
    for slot := 0 to p.slots
      invariant |incoming| == slot && Extends(n, m) && TablesOk(p, m)
      invariant PartlyMet(m, preds, n.outs, b, incoming)
      invariant m != n ==> Fresh(n, incoming)
      invariant PhisFor(n, m, b)
    {
      var meet: nat;
      ghost var before := m;
      m, meet := MeetSlot(p, g, preds, n, m, b, incoming);
      PhisForMore(n, before, m, b);
      incoming := incoming + [meet];
    }
  }

  lemma PhisForMore(n: Naming, now: Naming, m: Naming, b: nat)
    requires PhisFor(n, now, b) && PhisFor(now, m, b)
    ensures PhisFor(n, m, b)
  {}

  /** All slots of the row so far have their merged names. */
  ghost predicate PartlyMet(m: Naming, preds: seq<seq<nat>>, outs: seq<Row>, b: nat, row: Row)
    requires b < |preds|
  {
    forall x :: 0 <= x < |row| ==> Met(m, preds, outs, b, x, row[x])
  }

  ghost predicate Met(m: Naming, preds: seq<seq<nat>>, outs: seq<Row>, b: nat, x: nat, v: nat)
    requires b < |preds|
  {
    v < |m.values| && m.values[v].slot == x && Merged(m, preds, outs, b, x, v)
  }

  /** The row names a value that `n` does not have. */
  ghost predicate Fresh(n: Naming, row: Row) {
    exists x :: 0 <= x < |row| && row[x] >= |n.values|
  }

  lemma FreshKept(n: Naming, row: Row, meet: nat)
    ensures Fresh(n, row) ==> Fresh(n, row + [meet])
  {
    if Fresh(n, row) {
      var x :| 0 <= x < |row| && row[x] >= |n.values|;
      assert (row + [meet])[x] >= |n.values|;
    }
  }

  method MeetSlot(p: RuntimeProgram, g: BlockGraph, preds: seq<seq<nat>>, n: Naming, now: Naming, b: nat, row: Row)
      returns (m: Naming, meet: nat)
    requires g.Valid(p) && PredsOk(g, preds) && WellNamed(p, g, n) && b < |g.starts| && |row| < p.slots
    requires Extends(n, now) && TablesOk(p, now) && PartlyMet(now, preds, n.outs, b, row)
    requires now != n ==> Fresh(n, row)
    ensures Extends(n, m) && TablesOk(p, m) && PartlyMet(m, preds, n.outs, b, row + [meet])
    ensures m != n ==> Fresh(n, row + [meet])
    ensures PhisFor(now, m, b)
  {
    var slot := |row|;
    var candidates := Candidates(n.outs, preds, b, slot);
    CandidatesNamed(p, g, preds, n, b, slot);
    hide Candidates;
    hide PartlyMet;
    hide TablesOk;
    hide RowsOk;
    var first :| first in candidates;
    m := now;
    if candidates == {first} {
      meet := first;
      assert Met(m, preds, n.outs, b, slot, meet);
    } else {
      m, meet := PhiFor(p, now, b, slot);
      assert Met(m, preds, n.outs, b, slot, meet);
      assert m != now ==> (row + [meet])[slot] >= |n.values|;
    }
    FreshKept(n, row, meet);
    MetKept(now, m, preds, n.outs, b, row, meet);
  }

  lemma MetKept(now: Naming, m: Naming, preds: seq<seq<nat>>, outs: seq<Row>, b: nat, row: Row, meet: nat)
    requires b < |preds| && Extends(now, m) && PartlyMet(now, preds, outs, b, row)
      && Met(m, preds, outs, b, |row|, meet)
    ensures PartlyMet(m, preds, outs, b, row + [meet])
  {
    hide Candidates;
    forall x | 0 <= x < |row|
      ensures Met(m, preds, outs, b, x, row[x])
    {
      assert Met(now, preds, outs, b, x, row[x]);
    }
  }

  lemma CandidatesNamed(p: RuntimeProgram, g: BlockGraph, preds: seq<seq<nat>>, n: Naming, b: nat, x: nat)
    requires g.Valid(p) && PredsOk(g, preds) && WellNamed(p, g, n) && b < |g.starts| && x < p.slots
    ensures Candidates(n.outs, preds, b, x) != {}
    ensures forall v :: v in Candidates(n.outs, preds, b, x) ==> v < |n.values| && n.values[v].slot == x
  {
    forall c: nat | c in preds[b]
      ensures c < |n.outs| && RowOk(p, n.values, n.outs[c])
    {
      assert c < |g.successors|;
    }
    if preds[b] != [] {
      var c := preds[b][0];
      assert c in preds[b];
      assert n.outs[c][x] in Candidates(n.outs, preds, b, x);
    } else {
      assert x in Candidates(n.outs, preds, b, x);
    }
  }

  method ApplyBlock(p: RuntimeProgram, defs: map<(nat, nat), nat>, row: Row, start: nat, end: nat)
      returns (outgoing: Row)
    requires DefsTotal(p, defs) && start <= end <= |p.instrs| && |row| == p.slots && InRange(p)
    ensures outgoing == RowAt(p, defs, row, start, end)
  {
    hide ApplyOne;
    hide InRange;
    hide DefsTotal;
    outgoing := row;
    for i := start to end
      invariant outgoing == RowAt(p, defs, row, start, i)
    {
      outgoing := ApplyInstr(p, defs, outgoing, i);
    }
  }

  method ApplyInstr(p: RuntimeProgram, defs: map<(nat, nat), nat>, row: Row, i: nat) returns (after: Row)
    requires DefsTotal(p, defs) && i < |p.instrs| && |row| == p.slots && InRange(p)
    ensures after == ApplyOne(p, defs, row, i)
  {
    assert InstrInRange(p, p.instrs[i]);
    var writes := WriteSlots(p.instrs[i]);
    after := row;
    for k := 0 to |writes|
      invariant |after| == |row|
      invariant forall x :: 0 <= x < |row| ==> after[x] == if x in writes[..k] then defs[(i, x)] else row[x]
    {
      assert writes[k] in writes && WritesSlot(p, i, writes[k]);
      after := after[writes[k] := defs[(i, writes[k])]];
      assert writes[..k + 1] == writes[..k] + [writes[k]];
    }
    assert writes[..|writes|] == writes;
  }

  /** One pass of the loop: every block in turn, each seeing the rows its predecessors have by then. */
  method Pass(p: RuntimeProgram, g: BlockGraph, preds: seq<seq<nat>>, n: Naming, ghost settled: set<(nat, nat)>)
      returns (m: Naming, changed: bool)
    requires InRange(p) && g.Valid(p) && PredsOk(g, preds) && WellNamed(p, g, n) && Tracked(p, g, preds, n)
    ensures WellNamed(p, g, m)
    ensures !changed ==> m == n && Stable(p, g, preds, n)
    ensures PhisWithin(n, |g.starts|) ==> PhisWithin(m, |g.starts|)
    ensures PassedBy(p, g, preds, n, m, settled, |g.starts|)
    ensures changed && Settling(p, g, preds, n, settled) ==> !AllIn(p, g, settled)
  {
    m, changed := n, false;
    StartPassed(p, g, preds, n, settled);
    hide WellNamed;
    hide Tracked;
    hide StableBlock;
    hide Settling;
    for b := 0 to |g.starts|
      invariant WellNamed(p, g, m)
      invariant !changed ==> m == n && StableBelow(p, g, preds, n, b)
      invariant PhisWithin(n, |g.starts|) ==> PhisWithin(m, |g.starts|)
      invariant PassedBy(p, g, preds, n, m, settled, b)
      invariant changed && Settling(p, g, preds, n, settled) ==> !AllIn(p, g, settled)
    {
      hide BlockGraph.Valid;
      ghost var before := m;
      var differs;
      m, differs := PassBlock(p, g, preds, m, b);
      PassVisit(p, g, preds, n, before, m, settled, b);
      NoDifference(p, g, preds, n, before, m, settled, b);
      hide PassedBy;
      hide AllIn;
      hide Visit;
      changed := changed || differs;
    }
  }

  lemma NoDifference(p: RuntimeProgram, g: BlockGraph, preds: seq<seq<nat>>, start: Naming, n: Naming, m: Naming,
      settled: set<(nat, nat)>, b: nat)
    requires PassedBy(p, g, preds, start, n, settled, b) && PassedBy(p, g, preds, start, m, settled, b + 1)
    ensures Settling(p, g, preds, start, settled) && AllIn(p, g, settled) ==> m.ins == n.ins && m.outs == n.outs
  {
    hide Settling;
    hide Tracked;
    hide AllIn;
    hide OutsGrow;
  }

  /** One block of a pass. */
  method PassBlock(p: RuntimeProgram, g: BlockGraph, preds: seq<seq<nat>>, n: Naming, b: nat)
      returns (m: Naming, changed: bool)
    requires InRange(p) && g.Valid(p) && PredsOk(g, preds) && WellNamed(p, g, n) && b < |g.starts|
    ensures WellNamed(p, g, m)
    ensures !changed ==> m == n && StableBlock(p, g, preds, n, b)
    ensures changed ==> m.ins != n.ins || m.outs != n.outs
    ensures PhisFor(n, m, b)
    ensures DefsTotal(p, n.defs) && Visit(p, g, preds, n, m, b)
  {
    assert DefsTotal(p, n.defs);
    var met, incoming := MeetBlock(p, g, preds, n, b);
    BlockWithin(p, g, b);
    var outgoing := ApplyBlock(p, n.defs, incoming, g.starts[b], g.End(b));
    m, changed := n, false;
    if n.ins[b] != incoming || n.outs[b] != outgoing {
      UpdatedWellNamed(p, g, n, met, b, incoming, outgoing);
      m := met.(ins := met.ins[b := incoming], outs := met.outs[b := outgoing]);
      changed := true;
      Visited(p, g, preds, n, met, b, incoming, outgoing);
    } else {
      NothingNew(p, g, n, met, b, incoming);
      Visited(p, g, preds, n, n, b, incoming, outgoing);
      SameRows(n, b, incoming, outgoing);
      assert StableBlock(p, g, preds, n, b);
    }
  }

  lemma SameRows(n: Naming, b: nat, incoming: Row, outgoing: Row)
    requires b < |n.ins| && b < |n.outs| && n.ins[b] == incoming && n.outs[b] == outgoing
    ensures n.(ins := n.ins[b := incoming], outs := n.outs[b := outgoing]) == n
  {
    assert n.ins[b := incoming] == n.ins && n.outs[b := outgoing] == n.outs;
  }

  lemma Visited(p: RuntimeProgram, g: BlockGraph, preds: seq<seq<nat>>, n: Naming, met: Naming, b: nat, incoming: Row,
      outgoing: Row)
    requires WellNamed(p, g, n) && PredsOk(g, preds) && DefsTotal(p, n.defs) && Extends(n, met) && b < |g.starts|
    requires PartlyMet(met, preds, n.outs, b, incoming) && |incoming| == p.slots
    requires outgoing == RowAt(p, n.defs, incoming, g.starts[b], g.End(b))
    ensures Visit(p, g, preds, n, met.(ins := met.ins[b := incoming], outs := met.outs[b := outgoing]), b)
  {
    hide RowAt;
    hide Candidates;
    forall x: nat | x < p.slots
      ensures Merged(met, preds, n.outs, b, x, incoming[x])
    {
      assert Met(met, preds, n.outs, b, x, incoming[x]);
    }
  }

  ghost predicate StableBelow(p: RuntimeProgram, g: BlockGraph, preds: seq<seq<nat>>, n: Naming, b: nat)
    requires g.Valid(p) && PredsOk(g, preds) && WellNamed(p, g, n) && b <= |g.starts|
  {
    forall c :: 0 <= c < b ==> StableBlock(p, g, preds, n, c)
  }

  lemma UpdatedWellNamed(p: RuntimeProgram, g: BlockGraph, n: Naming, m: Naming, b: nat, incoming: Row, outgoing: Row)
    requires WellNamed(p, g, n) && Extends(n, m) && TablesOk(p, m) && RowOk(p, m.values, incoming)
      && DefsTotal(p, m.defs)
    requires b < |g.starts| && outgoing == RowAt(p, m.defs, incoming, g.starts[b], g.End(b))
    ensures WellNamed(p, g, m.(ins := m.ins[b := incoming], outs := m.outs[b := outgoing]))
  {
    ExtendedWellNamed(p, g, n, m);
    RowAtOk(p, m, incoming, g.starts[b], g.End(b));
  }

  lemma NothingNew(p: RuntimeProgram, g: BlockGraph, n: Naming, m: Naming, b: nat, incoming: Row)
    requires WellNamed(p, g, n) && b < |g.starts| && n.ins[b] == incoming
    requires m != n ==> Fresh(n, incoming)
    ensures m == n
  {
    assert RowOk(p, n.values, n.ins[b]);
  }

  /** `build_value_ssa`, up to the instruction records.  A pass that leaves everything unchanged comes before
      the iteration limit. */
  method BuildValueSsa(p: RuntimeProgram, g: BlockGraph) returns (n: Naming, preds: seq<seq<nat>>)
    requires InRange(p) && g.Valid(p)
    ensures WellNamed(p, g, n) && PredsOk(g, preds) && DefsTotal(p, n.defs)
    ensures Stable(p, g, preds, n)
    ensures PhisWithin(n, |g.starts|)
  {
    preds := InvertSuccessors(g);
    var values, defs := NumberResults(p);
    var entries := seq(p.slots, x requires 0 <= x < p.slots => x);
    var rows := seq(|g.starts|, b => entries);
    n := Naming(values, defs, map[], rows, rows);
    var converged := false;
    var limit, passes := |g.starts| * (if p.slots > 1 then p.slots else 1) * 4 + 8, 0;
    StartProgress(p, g, preds, n);
    ghost var fixed, settled := false, {};
    LimitIsEnough(|g.starts|, p.slots);
    while passes < limit && !converged
      invariant WellNamed(p, g, n)
      invariant converged ==> Stable(p, g, preds, n)
      invariant PhisWithin(n, |g.starts|)
      invariant !converged ==>
        Progress(p, g, preds, n, fixed, settled)
        && passes + Left(p, g, n, fixed, settled) <= 2 * |g.starts| * p.slots + 2
    {
      hide WellNamed;
      hide Stable;
      hide Left;
      hide Tracked;
      ghost var before := n;
      var changed;
      n, changed := Pass(p, g, preds, n, settled);
      if changed {
        ghost var fixed', settled' := NextProgress(p, g, preds, before, n, fixed, settled);
        fixed, settled := fixed', settled';
      }
      converged := !changed;
      passes := passes + 1;
    }
  }

  lemma LimitIsEnough(blocks: nat, slots: nat)
    ensures blocks * (if slots > 1 then slots else 1) * 4 + 8 >= 2 * blocks * slots + 2
  {
    if slots == 0 {
      assert blocks * slots == 0;
    }
  }

  // ----- the phis in order -----

  type Places = seq<(nat, nat)>

  predicate Earlier(a: (nat, nat), b: (nat, nat)) {
    a.0 < b.0 || (a.0 == b.0 && a.1 < b.1)
  }

  ghost predicate Ascending(places: Places) {
    forall j, k :: 0 <= j < k < |places| ==> Earlier(places[j], places[k])
  }

  /** The phis that come before `end`, block by block and slot by slot, each once. */
  ghost predicate PlacesBefore(n: Naming, places: Places, end: (nat, nat)) {
    Ascending(places) && forall at: (nat, nat) :: at in places <==> at in n.phis && Earlier(at, end)
  }

  /** All phis, block by block and slot by slot, each once. */
  ghost predicate ListsPhis(n: Naming, places: Places) {
    Ascending(places) && forall at: (nat, nat) :: at in places <==> at in n.phis
  }

  /** The sorted entries of the table of phis. */
  method SortedPhis(n: Naming, blocks: nat, slots: nat) returns (places: Places)
    requires forall at :: at in n.phis ==> at.0 < blocks && at.1 < slots
    ensures ListsPhis(n, places)
  {
    places := [];
    for b := 0 to blocks
      invariant PlacesBefore(n, places, (b, 0))
    {
      for x := 0 to slots
        invariant PlacesBefore(n, places, (b, x))
      {
        PlaceNext(n, places, b, x);
        hide PlacesBefore;
        if (b, x) in n.phis {
          places := places + [(b, x)];
        }
      }
    }
  }

  lemma EarlierNext(at: (nat, nat), b: nat, x: nat)
    ensures Earlier(at, (b, x + 1)) <==> Earlier(at, (b, x)) || at == (b, x)
  {
    assert at == (at.0, at.1);
  }

  lemma PlaceNext(n: Naming, places: Places, b: nat, x: nat)
    requires PlacesBefore(n, places, (b, x))
    ensures PlacesBefore(n, if (b, x) in n.phis then places + [(b, x)] else places, (b, x + 1))
  {
    forall at: (nat, nat)
      ensures Earlier(at, (b, x + 1)) <==> Earlier(at, (b, x)) || at == (b, x)
    {
      EarlierNext(at, b, x);
    }
    forall k | 0 <= k < |places|
      ensures Earlier(places[k], (b, x))
    {
      assert places[k] in places;
    }
  }
}
