/** `remove_runtime_instructions`: delete instructions and renumber every jump target. */
module Compaction {
  import opened Words
  import opened Ir

  /** How many of the first `n` instructions are kept: the new number of instruction `n`. */
  function Kept(removed: set<nat>, n: nat): (k: nat)
    ensures k <= n
  {
    if n == 0 then 0 else Kept(removed, n - 1) + (if n - 1 in removed then 0 else 1)
  }

  lemma {:induction false} KeptMonotone(removed: set<nat>, m: nat, n: nat)
    requires m <= n
    ensures Kept(removed, m) <= Kept(removed, n)
    ensures m < n && m !in removed ==> Kept(removed, m) < Kept(removed, n)
  {
    if m < n {
      KeptMonotone(removed, m, n - 1);
    }
  }

  function Retarget(i: RuntimeInstr, t: nat): RuntimeInstr
    requires TargetOf(i).Some?
  {
    match i
    case Jump(_) => Jump(t)
    case JumpIfZero(cond, _) => JumpIfZero(cond, t)
    case JumpIfCmpFalse(cmp, lhs, rhs, _) => JumpIfCmpFalse(cmp, lhs, rhs, t)
    case Call(_) => Call(t)
  }

  function Min(a: nat, b: nat): nat {
    if a < b then a else b
  }

  function Renumber(removed: set<nat>, len: nat, i: RuntimeInstr): RuntimeInstr {
    if TargetOf(i).Some? then Retarget(i, Kept(removed, Min(TargetOf(i).value, len))) else i
  }

  /** `q` is `p` without the removed instructions: every kept instruction sits at its new number and
      jumps to the new number of its old target. */
  ghost predicate Compacted(p: RuntimeProgram, removed: set<nat>, q: RuntimeProgram) {
    && q.slots == p.slots
    && |q.instrs| == Kept(removed, |p.instrs|)
    && AllKept(p.instrs, removed, q.instrs, |p.instrs|)
  }

  ghost predicate AllKept(old_code: seq<RuntimeInstr>, removed: set<nat>, code: seq<RuntimeInstr>, n: nat)
    requires n <= |old_code|
  {
    forall i {:trigger KeptAt(old_code, removed, code, i)} :: 0 <= i < n && i !in removed ==>
      KeptAt(old_code, removed, code, i)
  }

  ghost predicate KeptAt(old_code: seq<RuntimeInstr>, removed: set<nat>, code: seq<RuntimeInstr>, i: nat)
    requires i < |old_code|
  {
    Kept(removed, i) < |code| && code[Kept(removed, i)] == Renumber(removed, |old_code|, old_code[i])
  }

  lemma KeepOne(old_code: seq<RuntimeInstr>, removed: set<nat>, code: seq<RuntimeInstr>, n: nat, instr: RuntimeInstr)
    requires n < |old_code| && AllKept(old_code, removed, code, n) && |code| == Kept(removed, n)
    requires n !in removed && instr == Renumber(removed, |old_code|, old_code[n])
    ensures AllKept(old_code, removed, code + [instr], n + 1)
  {
    hide Renumber;
    forall i | 0 <= i < n + 1 && i !in removed
      ensures KeptAt(old_code, removed, code + [instr], i)
    {
      assert i < n ==> KeptAt(old_code, removed, code, i);
    }
  }

  function RenumberWith(old_to_new: seq<nat>, len: nat, i: RuntimeInstr): RuntimeInstr
    requires |old_to_new| == len + 1
  {
    if TargetOf(i).Some? then Retarget(i, old_to_new[Min(TargetOf(i).value, len)]) else i
  }

  method NewNumbers(old_len: nat, removed: set<nat>) returns (old_to_new: seq<nat>)
    ensures |old_to_new| == old_len + 1 && forall k {:trigger old_to_new[k]} :: 0 <= k <= old_len ==>
      old_to_new[k] == Kept(removed, k)
  {
    old_to_new := [];
    var next := 0;
    for index := 0 to old_len
      invariant |old_to_new| == index && next == Kept(removed, index)
      invariant forall k {:trigger old_to_new[k]} :: 0 <= k < index ==> old_to_new[k] == Kept(removed, k)
    {
      old_to_new := old_to_new + [next];
      if index !in removed {
        next := next + 1;
      }
    }
    old_to_new := old_to_new + [next];
  }

  method RemoveRuntimeInstructions(p: RuntimeProgram, removed: set<nat>) returns (q: RuntimeProgram)
    ensures Compacted(p, removed, q)
  {
    var old_len := |p.instrs|;
    var old_to_new := NewNumbers(old_len, removed);
    var compact: seq<RuntimeInstr> := [];
    for index := 0 to old_len
      invariant |compact| == Kept(removed, index)
      invariant AllKept(p.instrs, removed, compact, index)
    {
      if index !in removed {
        var instr := RenumberWith(old_to_new, old_len, p.instrs[index]);
        KeepOne(p.instrs, removed, compact, index, instr);
        compact := compact + [instr];
      }
    }
    q := RuntimeProgram(p.slots, compact);
  }

  /** Nothing but kept instructions ends up in the compacted program. */
  lemma {:induction false} NothingElse(p: RuntimeProgram, removed: set<nat>, q: RuntimeProgram, n: nat, k: nat)
      returns (i: nat)
    requires Compacted(p, removed, q) && n <= |p.instrs| && k < Kept(removed, n)
    ensures i < n && i !in removed && Kept(removed, i) == k
  {
    if n - 1 !in removed && Kept(removed, n - 1) == k {
      i := n - 1;
    } else {
      i := NothingElse(p, removed, q, n - 1, k);
    }
  }
}
