/** The flat runtime program that the optimizer, the LIR builder and the x86-64 backend share. */
module Ir {
  import opened Words

  datatype Option<+T> = None | Some(value: T)

  datatype RuntimeOperand = Slot(slot: nat) | Imm(imm: u64)

  datatype RuntimeBinOp =
    | Add | Sub | Mul | DivUnsigned | DivSigned | ModUnsigned | ModSigned
    | BitAnd | BitOr | BitXor | Shl | ShrUnsigned | ShrSigned

  datatype RuntimeCmpOp =
    | Eq | Ne | LtUnsigned | LeUnsigned | GtUnsigned | GeUnsigned
    | LtSigned | LeSigned | GtSigned | GeSigned

  /** The instructions of `RuntimeInstr`.  The checked and unchecked index instructions differ in
      one flag, and every instruction whose effect belongs to the outside world (heap, files,
      channels, floating point) is a `Foreign` one with at most three operands and one result. */
  datatype RuntimeInstr =
    | Mov(dst: nat, src: RuntimeOperand)
    | BinOp(dst: nat, op: RuntimeBinOp, lhs: RuntimeOperand, rhs: RuntimeOperand)
    | BinOpInPlace(dst: nat, op: RuntimeBinOp, rhs: RuntimeOperand)
    | Cmp(dst: nat, cmp: RuntimeCmpOp, lhs: RuntimeOperand, rhs: RuntimeOperand)
    | NormalizeInt(dst: nat, signed: bool, bits: nat)
    | CompareSwap(left: nat, right: nat, signed: bool)
    | LoadIndex(dst: nat, base_slots: seq<nat>, index: RuntimeOperand, checked: bool)
    | StoreIndex(base_slots: seq<nat>, index: RuntimeOperand, src: RuntimeOperand, checked: bool)
    | LoadSeed(dst: nat, kind: string, input: Option<RuntimeOperand>)
    | PrintConst(text: string)
    | PrintInt(value: RuntimeOperand, signed: bool, bits: nat)
    | Foreign(name: string, result: Option<nat>, a: RuntimeOperand, b: RuntimeOperand, c: RuntimeOperand)
    | Jump(target: nat)
    | JumpIfZero(cond_slot: nat, target: nat)
    | JumpIfCmpFalse(cmp: RuntimeCmpOp, lhs: RuntimeOperand, rhs: RuntimeOperand, target: nat)
    | Call(target: nat)
    | Return
    | Exit(code: RuntimeOperand)

  datatype RuntimeProgram = RuntimeProgram(slots: nat, instrs: seq<RuntimeInstr>)

  predicate IsControl(i: RuntimeInstr) {
    i.Jump? || i.JumpIfZero? || i.JumpIfCmpFalse? || i.Call? || i.Return? || i.Exit?
  }

  function TargetOf(i: RuntimeInstr): Option<nat> {
    if i.Jump? || i.JumpIfZero? || i.JumpIfCmpFalse? || i.Call? then Some(i.target) else None
  }

  function OperandSlots(o: RuntimeOperand): seq<nat> {
    match o
    case Slot(s) => [s]
    case Imm(_) => []
  }

  /** The slots an instruction reads without going through an operand. */
  function DirectReads(i: RuntimeInstr): seq<nat> {
    match i
    case BinOpInPlace(dst, _, _) => [dst]
    case NormalizeInt(dst, _, _) => [dst]
    case JumpIfZero(cond, _) => [cond]
    case CompareSwap(left, right, _) => [left, right]
    case LoadIndex(_, base_slots, _, _) => base_slots
    case StoreIndex(base_slots, _, _, _) => base_slots
    case _ => []
  }

  /** The operands that `read_slots` looks at; nothing reads the input of `LoadSeed`. */
  function Operands(i: RuntimeInstr): seq<RuntimeOperand> {
    match i
    case Mov(_, src) => [src]
    case BinOp(_, _, lhs, rhs) => [lhs, rhs]
    case BinOpInPlace(_, _, rhs) => [rhs]
    case Cmp(_, _, lhs, rhs) => [lhs, rhs]
    case LoadIndex(_, _, index, _) => [index]
    case StoreIndex(_, index, src, _) => [index, src]
    case PrintInt(value, _, _) => [value]
    case Foreign(_, _, a, b, c) => [a, b, c]
    case JumpIfCmpFalse(_, lhs, rhs, _) => [lhs, rhs]
    case Exit(code) => [code]
    case _ => []
  }

  function AllOperandSlots(os: seq<RuntimeOperand>): (r: seq<nat>)
    ensures forall x :: x in r <==> Slot(x) in os
  {
    if os == [] then [] else OperandSlots(os[0]) + AllOperandSlots(os[1..])
  }

  /** `read_slots` */
  function ReadSlots(i: RuntimeInstr): (r: seq<nat>)
    ensures forall x :: x in r <==> x in DirectReads(i) || Slot(x) in Operands(i)
  {
    DirectReads(i) + AllOperandSlots(Operands(i))
  }

  /** `write_slots` */
  function WriteSlots(i: RuntimeInstr): seq<nat> {
    match i
    case Mov(dst, _) => [dst]
    case BinOp(dst, _, _, _) => [dst]
    case BinOpInPlace(dst, _, _) => [dst]
    case Cmp(dst, _, _, _) => [dst]
    case NormalizeInt(dst, _, _) => [dst]
    case LoadIndex(dst, _, _, _) => [dst]
    case LoadSeed(dst, _, _) => [dst]
    case CompareSwap(left, right, _) => [left, right]
    case StoreIndex(base_slots, _, _, _) => base_slots
    case Foreign(_, Some(dst), _, _, _) => [dst]
    case _ => []
  }

  /** `verify_runtime_program` */
  predicate InRange(p: RuntimeProgram) {
    forall k :: 0 <= k < |p.instrs| ==> InstrInRange(p, p.instrs[k])
  }

  predicate InstrInRange(p: RuntimeProgram, i: RuntimeInstr) {
    && (forall x :: x in ReadSlots(i) ==> x < p.slots)
    && (forall x :: x in WriteSlots(i) ==> x < p.slots)
    && (TargetOf(i).Some? ==> TargetOf(i).value <= |p.instrs|)
  }

  /** Replace every operand and every directly named slot of an instruction. */
  function MapInstr(i: RuntimeInstr, fo: RuntimeOperand -> RuntimeOperand, fs: nat -> nat): RuntimeInstr {
    match i
    case Mov(dst, src) => Mov(fs(dst), fo(src))
    case BinOp(dst, op, lhs, rhs) => BinOp(fs(dst), op, fo(lhs), fo(rhs))
    case BinOpInPlace(dst, op, rhs) => BinOpInPlace(fs(dst), op, fo(rhs))
    case Cmp(dst, cmp, lhs, rhs) => Cmp(fs(dst), cmp, fo(lhs), fo(rhs))
    case NormalizeInt(dst, signed, bits) => NormalizeInt(fs(dst), signed, bits)
    case CompareSwap(left, right, signed) => CompareSwap(fs(left), fs(right), signed)
    case LoadIndex(dst, base, index, checked) => LoadIndex(fs(dst), MapSlots(base, fs), fo(index), checked)
    case StoreIndex(base, index, src, checked) => StoreIndex(MapSlots(base, fs), fo(index), fo(src), checked)
    case LoadSeed(dst, kind, input) =>
      LoadSeed(fs(dst), kind, if input.Some? then Some(fo(input.value)) else None)
    case PrintConst(text) => i
    case PrintInt(value, signed, bits) => PrintInt(fo(value), signed, bits)
    case Foreign(name, result, a, b, c) =>
      Foreign(name, if result.Some? then Some(fs(result.value)) else None, fo(a), fo(b), fo(c))
    case Jump(target) => i
    case JumpIfZero(cond, target) => JumpIfZero(fs(cond), target)
    case JumpIfCmpFalse(cmp, lhs, rhs, target) => JumpIfCmpFalse(cmp, fo(lhs), fo(rhs), target)
    case Call(target) => i
    case Return => i
    case Exit(code) => Exit(fo(code))
  }

  function MapSlots(s: seq<nat>, fs: nat -> nat): (r: seq<nat>)
    ensures |r| == |s| && forall k :: 0 <= k < |s| ==> r[k] == fs(s[k])
  {
    seq(|s|, k requires 0 <= k < |s| => fs(s[k]))
  }

  lemma MapIdentity(i: RuntimeInstr, fo: RuntimeOperand -> RuntimeOperand, fs: nat -> nat)
    requires forall o :: fo(o) == o
    requires forall x :: fs(x) == x
    ensures MapInstr(i, fo, fs) == i
  {
    if i.LoadIndex? || i.StoreIndex? {
      assert MapSlots(i.base_slots, fs) == i.base_slots;
    }
  }
}
