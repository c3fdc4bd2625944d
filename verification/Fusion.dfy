/** Instruction fusions of the x86-64 backend: the search for later reads, and the two affine patterns. */
module Fusion {
  import opened Words
  import opened Ir
  import opened Semantics
  import opened Blocks
  import opened Permutations

  // ----- later reads -----

  /** `runtime_instr_reads_slot`; unlike `read_slots` it counts the input of `LoadSeed`. */
  predicate ReadsSlot(i: RuntimeInstr, x: nat) {
    x in ReadSlots(i) || (i.LoadSeed? && i.input == Some(Slot(x)))
  }

  /** The edges the search follows: all but those of `Return`. */
  predicate Follows(p: RuntimeProgram, i: nat, j: nat)
    requires i < |p.instrs|
  {
    StaticNext(p, i, j) && !p.instrs[i].Return?
  }

  ghost predicate ReadWithin(p: RuntimeProgram, i: nat, x: nat, n: nat)
    requires i < |p.instrs|
    decreases n
  {
    n > 0 &&
    (ReadsSlot(p.instrs[i], x) ||
     (x !in WriteSlots(p.instrs[i]) && exists j: nat :: Follows(p, i, j) && ReadWithin(p, j, x, n - 1)))
  }

  /** Some path of the search from instruction `i` reads slot `x` before writing it. */
  ghost predicate ReadLater(p: RuntimeProgram, i: nat, x: nat) {
    i < |p.instrs| && exists n: nat :: ReadWithin(p, i, x, n)
  }

  /** Where the search goes on from instruction `i`; the last entry is visited first. */
  function Continuations(p: RuntimeProgram, i: nat): seq<nat>
    requires i < |p.instrs|
  {
    match p.instrs[i]
    case Jump(target) => [target]
    case JumpIfZero(_, target) => [target, i + 1]
    case JumpIfCmpFalse(_, _, _, target) => [target, i + 1]
    case Call(target) => [target, i + 1]
    case Return => []
    case Exit(_) => []
    case _ => [i + 1]
  }

  lemma ContinuationsFollow(p: RuntimeProgram, i: nat, j: nat)
    requires i < |p.instrs|
    ensures j < |p.instrs| ==> (j in Continuations(p, i) <==> Follows(p, i, j))
  {}

  /** What has been visited reads nothing, and leads only to what has been or will be visited. */
  ghost predicate Searched(p: RuntimeProgram, x: nat, visited: set<nat>, pending: seq<nat>) {
    forall i: nat :: i in visited ==>
      i < |p.instrs| && !ReadsSlot(p.instrs[i], x) &&
      (x !in WriteSlots(p.instrs[i]) ==> forall j: nat :: Follows(p, i, j) ==> j in visited || j in pending)
  }

  /** Whatever is still to be visited matters for the answer. */
  ghost predicate Relevant(p: RuntimeProgram, start: nat, x: nat, pending: seq<nat>) {
    forall i: nat :: i in pending && ReadLater(p, i, x) ==> ReadLater(p, start, x)
  }

  lemma ReadHere(p: RuntimeProgram, i: nat, x: nat)
    requires i < |p.instrs| && ReadsSlot(p.instrs[i], x)
    ensures ReadLater(p, i, x)
  {
    hide ReadsSlot;
    assert ReadWithin(p, i, x, 1);
  }

  lemma ReadBeyond(p: RuntimeProgram, i: nat, j: nat, x: nat)
    requires i < |p.instrs| && x !in WriteSlots(p.instrs[i]) && Follows(p, i, j) && ReadLater(p, j, x)
    ensures ReadLater(p, i, x)
  {
    hide ReadsSlot;
    hide WriteSlots;
    hide Follows;
    var n: nat :| ReadWithin(p, j, x, n);
    assert ReadWithin(p, i, x, n + 1);
  }

  lemma {:induction false} NothingRead(p: RuntimeProgram, x: nat, visited: set<nat>, i: nat, n: nat)
    requires Searched(p, x, visited, []) && i in visited && i < |p.instrs|
    ensures !ReadWithin(p, i, x, n)
    decreases n
  {
    hide ReadsSlot;
    hide WriteSlots;
    hide Follows;
    if n > 0 && x !in WriteSlots(p.instrs[i]) {
      forall j: nat | Follows(p, i, j)
        ensures j < |p.instrs| && !ReadWithin(p, j, x, n - 1)
      {
        NothingRead(p, x, visited, j, n - 1);
      }
    }
  }

  lemma VisitOne(p: RuntimeProgram, start: nat, x: nat, visited: set<nat>, pending: seq<nat>, i: nat)
    requires i < |p.instrs| && !ReadsSlot(p.instrs[i], x) && Searched(p, x, visited, pending + [i])
      && Relevant(p, start, x, pending + [i])
    ensures
      var more := if x in WriteSlots(p.instrs[i]) then [] else Continuations(p, i);
      Searched(p, x, visited + {i}, pending + more) && Relevant(p, start, x, pending + more)
  {
    hide ReadsSlot;
    hide ReadLater;
    var more := if x in WriteSlots(p.instrs[i]) then [] else Continuations(p, i);
    forall j: nat
      ensures j < |p.instrs| ==> (j in Continuations(p, i) <==> Follows(p, i, j))
    {
      ContinuationsFollow(p, i, j);
    }
    hide Continuations;
    forall j: nat | j in pending + more && ReadLater(p, j, x)
      ensures ReadLater(p, start, x)
    {
      assert i in pending + [i];
      if j in more {
        OnlyInside(p, j, x);
        ReadBeyond(p, i, j, x);
      } else {
        assert j in pending + [i];
      }
    }
    forall k: nat, j: nat | k in visited + {i} && x !in WriteSlots(p.instrs[k]) && Follows(p, k, j)
      ensures j in visited + {i} || j in pending + more
    {
      if k in visited {
        assert j in visited || j in pending + [i];
      } else {
        FollowsInside(p, k, j);
      }
    }
  }

  lemma OnlyInside(p: RuntimeProgram, j: nat, x: nat)
    requires ReadLater(p, j, x)
    ensures j < |p.instrs|
  {}

  lemma FollowsInside(p: RuntimeProgram, i: nat, j: nat)
    requires i < |p.instrs| && Follows(p, i, j)
    ensures j < |p.instrs|
  {}

  /** `runtime_slot_read_before_write` */
  method SlotReadBeforeWrite(p: RuntimeProgram, start: nat, x: nat) returns (r: bool)
    ensures r <==> ReadLater(p, start, x)
  {
    hide Follows;
    hide WriteSlots;
    hide Continuations;
    hide ReadsSlot;
    var pending := [start];
    var visited: set<nat> := {};
    while pending != []
      invariant Searched(p, x, visited, pending) && Relevant(p, start, x, pending)
      invariant start in visited || start in pending || start >= |p.instrs|
      invariant forall i :: i in visited ==> i < |p.instrs|
      decreases |p.instrs| - |visited|, |pending|
    {
      var i := pending[|pending| - 1];
      var rest := pending[..|pending| - 1];
      assert pending == rest + [i];
      VisitedSize(visited, |p.instrs|);
      hide ReadLater;
      if i >= |p.instrs| || i in visited {
        SkipOne(p, start, x, visited, rest, i);
        pending := rest;
      } else if ReadsSlot(p.instrs[i], x) {
        ReadHere(p, i, x);
        return true;
      } else {
        VisitOne(p, start, x, visited, rest, i);
        VisitedSize(visited + {i}, |p.instrs|);
        hide Searched;
        hide Relevant;
        visited := visited + {i};
        pending := rest + (if x in WriteSlots(p.instrs[i]) then [] else Continuations(p, i));
      }
    }
    if start < |p.instrs| {
      forall n: nat
        ensures !ReadWithin(p, start, x, n)
      {
        NothingRead(p, x, visited, start, n);
      }
    }
    return false;
  }

  lemma SkipOne(p: RuntimeProgram, start: nat, x: nat, visited: set<nat>, pending: seq<nat>, i: nat)
    requires Searched(p, x, visited, pending + [i]) && Relevant(p, start, x, pending + [i])
    requires i >= |p.instrs| || i in visited
    ensures Searched(p, x, visited, pending) && Relevant(p, start, x, pending)
  {
    hide ReadsSlot;
    hide ReadLater;
    hide WriteSlots;
    forall k: nat, j: nat | k in visited && x !in WriteSlots(p.instrs[k]) && Follows(p, k, j)
      ensures j in visited || j in pending
    {
      FollowsInside(p, k, j);
      assert j in visited || j in pending + [i];
    }
  }

  lemma VisitedSize(visited: set<nat>, n: nat)
    requires forall i :: i in visited ==> i < n
    ensures |visited| <= n
  {
    assert Nodes(n) == visited + (Nodes(n) - visited);
  }

  // ----- the affine patterns -----

  predicate HasIncoming(has_incoming_target: seq<bool>, i: nat) {
    i < |has_incoming_target| && has_incoming_target[i]
  }

  predicate NoneIncoming(has_incoming_target: seq<bool>, from: nat, to: nat) {
    forall i :: from <= i <= to ==> !HasIncoming(has_incoming_target, i)
  }

  const LOW32: u64 := 0xFFFF_FFFF

  /** `RuntimeU32AffineFusion` */
  datatype U32Affine = U32Affine(lhs: RuntimeOperand, mul: nat, add: nat, narrowed_slot: nat, state_slot: Option<nat>,
      consumed: nat)

  /** The three or four instructions `t := lhs * mul; u := t + add; narrowed := u & LOW32; state := narrowed`. */
  predicate IsU32Affine(p: RuntimeProgram, i: nat, t: nat, u: nat, r: U32Affine) {
    && i + 2 < |p.instrs| && i + r.consumed <= |p.instrs|
    && (match p.instrs[i]
        case BinOp(dst, op, lhs, rhs) =>
          dst == t && op == Mul && lhs == r.lhs && rhs.Imm? && rhs.imm % 0x1_0000_0000 == r.mul
        case _ => false)
    && (match p.instrs[i + 1]
        case BinOp(dst, op, lhs, rhs) =>
          dst == u && op == Add && lhs == Slot(t) && rhs.Imm? && rhs.imm % 0x1_0000_0000 == r.add
        case _ => false)
    && p.instrs[i + 2] == BinOp(r.narrowed_slot, BitAnd, Slot(u), Imm(LOW32))
    && (if r.state_slot.Some? then r.consumed == 4 && i + 3 < |p.instrs|
      && p.instrs[i + 3] == Mov(r.state_slot.value, Slot(r.narrowed_slot))
        else r.consumed == 3)
  }

  /** The temporaries, and the slots the pattern sets, are kept apart. */
  predicate U32Distinct(t: nat, u: nat, r: U32Affine) {
    && t != u && t != r.narrowed_slot && r.narrowed_slot != u
    && (r.state_slot.Some? ==> r.state_slot.value != t && r.state_slot.value != u)
  }

  ghost predicate U32Fuses(p: RuntimeProgram, i: nat, t: nat, u: nat, r: U32Affine) {
    && IsU32Affine(p, i, t, u, r) && U32Distinct(t, u, r)
    && !ReadLater(p, i + r.consumed, t) && !ReadLater(p, i + r.consumed, u)
  }

  /** A copy of the narrowed value follows and belongs to the group. */
  predicate CopyFollows(p: RuntimeProgram, i: nat, narrowed: nat, has_incoming_target: seq<bool>) {
    i + 3 < |p.instrs| && p.instrs[i + 3].Mov? && p.instrs[i + 3].src == Slot(narrowed)
      && !HasIncoming(has_incoming_target, i + 3)
  }

  /** The group that starts at `i`, as long as it can be without a jump into it. */
  predicate U32GroupAt(p: RuntimeProgram, i: nat, has_incoming_target: seq<bool>, t: nat, u: nat, r: U32Affine) {
    && IsU32Affine(p, i, t, u, r) && NoneIncoming(has_incoming_target, i + 1, i + r.consumed - 1)
    && (r.state_slot.None? ==> !CopyFollows(p, i, r.narrowed_slot, has_incoming_target))
  }

  ghost predicate U32Chosen(p: RuntimeProgram, i: nat, has_incoming_target: seq<bool>, t: nat, u: nat, r: U32Affine) {
    U32GroupAt(p, i, has_incoming_target, t, u, r) && U32Fuses(p, i, t, u, r)
  }

  /** The pattern of `runtime_u32_affine_fusion_candidate`, before the tests on its slots. */
  method MatchU32Affine(p: RuntimeProgram, i: nat, has_incoming_target: seq<bool>)
      returns (r: Option<(nat, nat, U32Affine)>)
    ensures r.Some? ==> U32GroupAt(p, i, has_incoming_target, r.value.0, r.value.1, r.value.2)
    ensures forall t: nat, u: nat, g: U32Affine :: U32GroupAt(p, i, has_incoming_target, t, u, g) ==>
      r == Some((t, u, g))
  {
    if i + 2 >= |p.instrs| || HasIncoming(has_incoming_target, i + 1) || HasIncoming(has_incoming_target, i + 2) {
      return None;
    }
    var first, second, third := p.instrs[i], p.instrs[i + 1], p.instrs[i + 2];
    if !(first.BinOp? && first.op == Mul && first.rhs.Imm?) {
      return None;
    }
    var t := first.dst;
    if !(second.BinOp? && second.op == Add && second.lhs == Slot(t) && second.rhs.Imm?) {
      return None;
    }
    var u := second.dst;
    if !(third.BinOp? && third.op == BitAnd && third.lhs == Slot(u) && third.rhs == Imm(LOW32)) {
      return None;
    }
    var narrowed := third.dst;
    var state: Option<nat> := None;
    if CopyFollows(p, i, narrowed, has_incoming_target) {
      state := Some(p.instrs[i + 3].dst);
    }
    var consumed := if state.Some? then 4 else 3;
    return Some((t, u,
      U32Affine(first.lhs, first.rhs.imm % 0x1_0000_0000, second.rhs.imm % 0x1_0000_0000, narrowed, state, consumed)));
  }

  /** `runtime_u32_affine_fusion_candidate`: the group at `i`, exactly when its slots are apart and its
      temporaries are not read later. */
  method U32AffineFusionCandidate(p: RuntimeProgram, i: nat, has_incoming_target: seq<bool>)
      returns (r: Option<U32Affine>)
    ensures forall g: U32Affine :: r == Some(g) <==>
      exists t: nat, u: nat :: U32Chosen(p, i, has_incoming_target, t, u, g)
  {
    hide U32GroupAt;
    hide IsU32Affine;
    hide ReadLater;
    var found := MatchU32Affine(p, i, has_incoming_target);
    if found.None? {
      return None;
    }
    var (t, u, fusion) := found.value;
    hide U32Distinct;
    if !U32Distinct(t, u, fusion) {
      return None;
    }
    assert IsU32Affine(p, i, t, u, fusion) by {
      U32GroupIs(p, i, has_incoming_target, t, u, fusion);
    }
    var readT := SlotReadBeforeWrite(p, i + fusion.consumed, t);
    if readT {
      return None;
    }
    var readU := SlotReadBeforeWrite(p, i + fusion.consumed, u);
    if readU {
      return None;
    }
    assert U32Chosen(p, i, has_incoming_target, t, u, fusion);
    return Some(fusion);
  }

  lemma U32GroupIs(p: RuntimeProgram, i: nat, has_incoming_target: seq<bool>, t: nat, u: nat, r: U32Affine)
    requires U32GroupAt(p, i, has_incoming_target, t, u, r)
    ensures IsU32Affine(p, i, t, u, r) && NoneIncoming(has_incoming_target, i + 1, i + r.consumed - 1)
  {}

  /** `RuntimeAffineSelectFusion` */
  datatype AffineSelect = AffineSelect(cmp: RuntimeCmpOp, cmp_lhs: RuntimeOperand, cmp_rhs: RuntimeOperand,
      state_slot: nat,
    then_mul: u64, then_add: u64, else_mul: u64, else_add: u64, mask: u64, consumed: nat)

  /** The temporaries and constants of the instructions that compute a selection with a mask. */
  datatype SelectParts = SelectParts(cond: nat, mask: nat, coefficient: nat, mul_delta: u64, add_delta: u64)

  predicate IsAffineSelect(p: RuntimeProgram, i: nat, s: SelectParts, r: AffineSelect) {
    && i + 7 < |p.instrs| && i + r.consumed <= |p.instrs|
    && p.instrs[i] == Cmp(s.cond, r.cmp, r.cmp_lhs, r.cmp_rhs)
    && p.instrs[i + 1] == BinOp(s.mask, Sub, Imm(0), Slot(s.cond))
    && p.instrs[i + 2] == BinOp(s.coefficient, BitAnd, Slot(s.mask), Imm(s.mul_delta))
    && p.instrs[i + 3] == BinOpInPlace(s.coefficient, BitXor, Imm(r.else_mul))
    && p.instrs[i + 4] == BinOpInPlace(r.state_slot, Mul, Slot(s.coefficient))
    && p.instrs[i + 5] == BinOp(s.coefficient, BitAnd, Slot(s.mask), Imm(s.add_delta))
    && p.instrs[i + 6] == BinOpInPlace(s.coefficient, BitXor, Imm(r.else_add))
    && p.instrs[i + 7] == BinOpInPlace(r.state_slot, Add, Slot(s.coefficient))
    && r.then_mul == Xor64(r.else_mul, s.mul_delta) && r.then_add == Xor64(r.else_add, s.add_delta)
    && (if r.consumed == 9 then i + 8 < |p.instrs| && p.instrs[i + 8] == BinOpInPlace(r.state_slot, BitAnd, Imm(r.mask))
        else r.consumed == 8 && r.mask == MAX)
  }

  ghost predicate SelectFuses(p: RuntimeProgram, i: nat, s: SelectParts, r: AffineSelect) {
    && IsAffineSelect(p, i, s, r)
    && !ReadLater(p, i + r.consumed, s.cond) && !ReadLater(p, i + r.consumed, s.mask)
    && !ReadLater(p, i + r.consumed, s.coefficient)
  }

  /** A mask of the state follows and belongs to the group. */
  predicate MaskFollows(p: RuntimeProgram, i: nat, state: nat, has_incoming_target: seq<bool>) {
    && i + 8 < |p.instrs| && !HasIncoming(has_incoming_target, i + 8)
    && match p.instrs[i + 8]
       case BinOpInPlace(dst, op, Imm(mask)) => dst == state && op == BitAnd && mask != MAX
       case _ => false
  }

  /** The group that starts at `i`, as long as it can be without a jump into it. */
  predicate SelectGroupAt(p: RuntimeProgram, i: nat, has_incoming_target: seq<bool>, s: SelectParts, r: AffineSelect) {
    && IsAffineSelect(p, i, s, r) && NoneIncoming(has_incoming_target, i + 1, i + r.consumed - 1)
    && (r.consumed == 9 <==> MaskFollows(p, i, r.state_slot, has_incoming_target))
  }

  ghost predicate SelectChosen(p: RuntimeProgram, i: nat, has_incoming_target: seq<bool>, s: SelectParts,
      r: AffineSelect)
  {
    SelectGroupAt(p, i, has_incoming_target, s, r) && SelectFuses(p, i, s, r)
  }

  /** The pattern of `runtime_affine_select_fusion_candidate`, before the search for later reads. */
  method MatchAffineSelect(p: RuntimeProgram, i: nat, has_incoming_target: seq<bool>)
      returns (r: Option<(SelectParts, AffineSelect)>)
    ensures r.Some? ==> SelectGroupAt(p, i, has_incoming_target, r.value.0, r.value.1)
    ensures forall s: SelectParts, g: AffineSelect :: SelectGroupAt(p, i, has_incoming_target, s, g) ==>
      r == Some((s, g))
  {
    if i + 7 >= |p.instrs| {
      return None;
    }
    if !NoneIncoming(has_incoming_target, i + 1, i + 7) {
      return None;
    }
    var i0, i1, i2, i3 := p.instrs[i], p.instrs[i + 1], p.instrs[i + 2], p.instrs[i + 3];
    var i4, i5, i6, i7 := p.instrs[i + 4], p.instrs[i + 5], p.instrs[i + 6], p.instrs[i + 7];
    if !i0.Cmp? {
      return None;
    }
    if !(i1.BinOp? && i1.op == Sub && i1.lhs == Imm(0) && i1.rhs == Slot(i0.dst)) {
      return None;
    }
    if !(i2.BinOp? && i2.op == BitAnd && i2.lhs == Slot(i1.dst) && i2.rhs.Imm?) {
      return None;
    }
    if !(i3.BinOpInPlace? && i3.op == BitXor && i3.dst == i2.dst && i3.rhs.Imm?) {
      return None;
    }
    if !(i4.BinOpInPlace? && i4.op == Mul && i4.rhs == Slot(i2.dst)) {
      return None;
    }
    if !(i5.BinOp? && i5.op == BitAnd && i5.dst == i2.dst && i5.lhs == Slot(i1.dst) && i5.rhs.Imm?) {
      return None;
    }
    if !(i6.BinOpInPlace? && i6.op == BitXor && i6.dst == i2.dst && i6.rhs.Imm?) {
      return None;
    }
    if !(i7.BinOpInPlace? && i7.op == Add && i7.dst == i4.dst && i7.rhs == Slot(i2.dst)) {
      return None;
    }
    var mask: u64 := MAX;
    if i + 8 < |p.instrs| && !HasIncoming(has_incoming_target, i + 8) {
      var i8 := p.instrs[i + 8];
      if i8.BinOpInPlace? && i8.op == BitAnd && i8.dst == i4.dst && i8.rhs.Imm? {
        mask := i8.rhs.imm;
      }
    }
    var parts := SelectParts(i0.dst, i1.dst, i2.dst, i2.rhs.imm, i5.rhs.imm);
    return Some((parts,
      AffineSelect(i0.cmp, i0.lhs, i0.rhs, i4.dst, Xor64(i3.rhs.imm, parts.mul_delta),
      Xor64(i6.rhs.imm, parts.add_delta),
      i3.rhs.imm, i6.rhs.imm, mask, if mask == MAX then 8 else 9)));
  }

  /** `runtime_affine_select_fusion_candidate`: the group at `i`, exactly when its temporaries are not
      read later. */
  method AffineSelectFusionCandidate(p: RuntimeProgram, i: nat, has_incoming_target: seq<bool>)
      returns (r: Option<AffineSelect>)
    ensures forall g: AffineSelect :: r == Some(g) <==>
      exists s: SelectParts :: SelectChosen(p, i, has_incoming_target, s, g)
  {
    hide SelectGroupAt;
    hide IsAffineSelect;
    hide ReadLater;
    var found := MatchAffineSelect(p, i, has_incoming_target);
    if found.None? {
      return None;
    }
    var (s, fusion) := found.value;
    assert IsAffineSelect(p, i, s, fusion) by {
      SelectGroupIs(p, i, has_incoming_target, s, fusion);
    }
    var readCond := SlotReadBeforeWrite(p, i + fusion.consumed, s.cond);
    var readMask := SlotReadBeforeWrite(p, i + fusion.consumed, s.mask);
    var readCoefficient := SlotReadBeforeWrite(p, i + fusion.consumed, s.coefficient);
    if readCond || readMask || readCoefficient {
      return None;
    }
    assert SelectChosen(p, i, has_incoming_target, s, fusion);
    return Some(fusion);
  }

  lemma SelectGroupIs(p: RuntimeProgram, i: nat, has_incoming_target: seq<bool>, s: SelectParts, r: AffineSelect)
    requires SelectGroupAt(p, i, has_incoming_target, s, r)
    ensures IsAffineSelect(p, i, s, r) && NoneIncoming(has_incoming_target, i + 1, i + r.consumed - 1)
  {}
}
