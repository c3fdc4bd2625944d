/** What a runtime program means: one step of the machine, runs of any length, and what an observer
    of a run can see. */
module Semantics {
  import opened Words
  import opened Ir

  // ----- arithmetic -----

  function ShiftAmount(b: u64): (k: nat)
    ensures k < 64
  {
    b % 64
  }

  function ShiftLeft(a: u64, k: nat): u64 {
    Up(a, k) % WORD
  }

  function ShiftRight(a: u64, k: nat): u64 {
    Down(a, k)
  }

  function ShiftRightSigned(a: u64, k: nat): u64 {
    if a < SIGN then Down(a, k) else Not(Down(Not(a), k))
  }

  /** The signed quotient and remainder of `checked_div` and `checked_rem`, when there is one. */
  function SignedDivision(a: u64, b: u64): Option<(u64, u64)> {
    var x, y := ToSigned(a), ToSigned(b);
    if y == 0 || (x == -SIGN && y == -1) then None
    else
      DivDivide(Abs(x), Abs(y));
      var q := TruncatedDiv(x, y);
      var r := if x < 0 then -(Abs(x) % Abs(y)) else Abs(x) % Abs(y);
      SignedQuotientFits(x, y);
      Some((FromSigned(q), FromSigned(r)))
  }

  lemma SignedQuotientFits(x: int, y: int)
    requires -SIGN <= x < SIGN && -SIGN <= y < SIGN && y != 0 && !(x == -SIGN && y == -1)
    ensures -SIGN <= TruncatedDiv(x, y) < SIGN
    ensures Abs(x) % Abs(y) < SIGN
  {
    DivDivide(Abs(x), Abs(y));
    if x < 0 && y < -1 {
      MulMono(2, Abs(y), Abs(x) / Abs(y));
    }
  }

  /** `evaluate_binop`; `None` is the hardware trap. */
  function EvaluateBinop(op: RuntimeBinOp, a: u64, b: u64): Option<u64> {
    match op
    case Add => Some((a + b) % WORD)
    case Sub => Some((a - b) % WORD)
    case Mul => Some((a * b) % WORD)
    case DivUnsigned => if b == 0 then None else (DivDivide(a, b); Some(a / b))
    case DivSigned => (match SignedDivision(a, b) case None => None case Some(qr) => Some(qr.0))
    case ModUnsigned => if b == 0 then None else (DivDivide(a, b); Some(a % b))
    case ModSigned => (match SignedDivision(a, b) case None => None case Some(qr) => Some(qr.1))
    case BitAnd => Some(And(a, b))
    case BitOr => Some(Or64(a, b))
    case BitXor => Some(Xor64(a, b))
    case Shl => Some(ShiftLeft(a, ShiftAmount(b)))
    case ShrUnsigned => Some(ShiftRight(a, ShiftAmount(b)))
    case ShrSigned => Some(ShiftRightSigned(a, ShiftAmount(b)))
  }

  /** `evaluate_cmp` */
  predicate EvaluateCmp(op: RuntimeCmpOp, a: u64, b: u64) {
    match op
    case Eq => a == b
    case Ne => a != b
    case LtUnsigned => a < b
    case LeUnsigned => a <= b
    case GtUnsigned => a > b
    case GeUnsigned => a >= b
    case LtSigned => ToSigned(a) < ToSigned(b)
    case LeSigned => ToSigned(a) <= ToSigned(b)
    case GtSigned => ToSigned(a) > ToSigned(b)
    case GeSigned => ToSigned(a) >= ToSigned(b)
  }

  function BoolWord(b: bool): u64 {
    if b then 1 else 0
  }

  /** Keep the low `bits` bits, then zero- or sign-extend; 64 bits and more change nothing. */
  function Normalize(v: u64, signed: bool, bits: nat): u64 {
    if bits >= 64 then v
    else if !signed then
      Low(v, bits)
    else ShiftRightSigned(ShiftLeft(v, 64 - bits), 64 - bits)
  }

  // ----- the machine -----

  /** Slots never written read as zero. */
  type Frame = map<nat, u64>

  function Get(f: Frame, x: nat): u64 {
    if x in f then f[x] else 0
  }

  function Eval(o: RuntimeOperand, f: Frame): u64 {
    match o
    case Slot(s) => Get(f, s)
    case Imm(v) => v
  }

  datatype Event =
    | Text(text: string)
    | Printed(value: u64, signed: bool, bits: nat)
    | Called(name: string, args: seq<u64>)

  type Trace = seq<Event>

  /** The outside world: the answer to a foreign call is any function of everything done so far. */
  type World = imap<Trace, u64>

  ghost function Answer(w: World, t: Trace): u64 {
    if t in w then w[t] else 0
  }

  /** `Underflow` is a `Return` with no pending call; `Ended` is running past the last instruction. */
  datatype Status = Running | Exited(code: u64) | Trapped | Ended | Underflow

  datatype Effect = Next(frame: Frame, trace: Trace) | Stop(status: Status)

  function OutOfBounds(checked: bool): Status {
    if checked then Exited(255) else Trapped
  }

  ghost function CallWorld(w: World, f: Frame, t: Trace, e: Event, dst: Option<nat>): Effect {
    var t' := t + [e];
    Next(if dst.Some? then f[dst.value := Answer(w, t')] else f, t')
  }

  predicate InOrder(a: u64, b: u64, signed: bool) {
    EvaluateCmp(if signed then LeSigned else LeUnsigned, a, b)
  }

  /** The effect of an instruction that is not a jump, call, return or exit. */
  ghost function Exec(w: World, i: RuntimeInstr, f: Frame, t: Trace): (e: Effect)
    requires !IsControl(i)
    ensures e.Stop? ==> e.status != Running
  {
    match i
    case Mov(dst, src) => Next(f[dst := Eval(src, f)], t)
    case BinOp(dst, op, lhs, rhs) => Arith(dst, EvaluateBinop(op, Eval(lhs, f), Eval(rhs, f)), f, t)
    case BinOpInPlace(dst, op, rhs) => Arith(dst, EvaluateBinop(op, Get(f, dst), Eval(rhs, f)), f, t)
    case Cmp(dst, cmp, lhs, rhs) => Next(f[dst := BoolWord(EvaluateCmp(cmp, Eval(lhs, f), Eval(rhs, f)))], t)
    case NormalizeInt(dst, signed, bits) => Next(f[dst := Normalize(Get(f, dst), signed, bits)], t)
    case CompareSwap(left, right, signed) =>
      if InOrder(Get(f, left), Get(f, right), signed) then Next(f, t)
      else Next(f[left := Get(f, right)][right := Get(f, left)], t)
    case LoadIndex(dst, base, index, checked) =>
      var k := Eval(index, f);
      if k < |base| then Next(f[dst := Get(f, base[k])], t) else Stop(OutOfBounds(checked))
    case StoreIndex(base, index, src, checked) =>
      var k := Eval(index, f);
      if k < |base| then Next(f[base[k] := Eval(src, f)], t) else Stop(OutOfBounds(checked))
    case LoadSeed(dst, kind, _) => CallWorld(w, f, t, Called(kind, []), Some(dst))
    case PrintConst(text) => Next(f, t + [Text(text)])
    case PrintInt(value, signed, bits) => Next(f, t + [Printed(Eval(value, f), signed, bits)])
    case Foreign(name, result, a, b, c) =>
      CallWorld(w, f, t, Called(name, [Eval(a, f), Eval(b, f), Eval(c, f)]), result)
  }

  ghost function Arith(dst: nat, v: Option<u64>, f: Frame, t: Trace): Effect {
    match v
    case Some(x) => Next(f[dst := x], t)
    case None => Stop(Trapped)
  }

  datatype State = State(pc: nat, frame: Frame, stack: seq<nat>, trace: Trace, status: Status)

  function Start(f: Frame): State {
    State(0, f, [], [], Running)
  }

  /** The operand test of a conditional jump: does it go to its target? */
  predicate Taken(i: RuntimeInstr, f: Frame) {
    match i
    case JumpIfZero(cond, _) => Get(f, cond) == 0
    case JumpIfCmpFalse(cmp, lhs, rhs, _) => !EvaluateCmp(cmp, Eval(lhs, f), Eval(rhs, f))
    case _ => true
  }

  ghost function Step(w: World, p: RuntimeProgram, s: State): State {
    if s.status != Running then s
    else if s.pc >= |p.instrs| then s.(status := Ended)
    else StepAt(w, p.instrs[s.pc], s)
  }

  ghost function StepAt(w: World, i: RuntimeInstr, s: State): State {
    match i
    case Jump(target) => s.(pc := target)
    case JumpIfZero(_, target) => s.(pc := if Taken(i, s.frame) then target else s.pc + 1)
    case JumpIfCmpFalse(_, _, _, target) => s.(pc := if Taken(i, s.frame) then target else s.pc + 1)
    case Call(target) => s.(pc := target, stack := s.stack + [s.pc + 1])
    case Return =>
      if s.stack == [] then s.(status := Underflow)
      else s.(pc := s.stack[|s.stack| - 1], stack := s.stack[..|s.stack| - 1])
    case Exit(code) => s.(status := Exited(Eval(code, s.frame)))
    case _ => Advance(s, Exec(w, i, s.frame, s.trace))
  }

  function Advance(s: State, e: Effect): State {
    match e
    case Next(f, t) => s.(pc := s.pc + 1, frame := f, trace := t)
    case Stop(status) => s.(status := status)
  }

  ghost function Run(w: World, p: RuntimeProgram, s: State, n: nat): State {
    if n == 0 then s else Step(w, p, Run(w, p, s, n - 1))
  }

  /** What an observer sees: the events so far, and whether and how the program stopped. */
  function Obs(s: State): (Trace, Status) {
    (s.trace, s.status)
  }

  // ----- equal behaviour -----

  /** Everything `p` can be observed to have done, `q` can be observed to have done as well: the same
      outputs in the same order and, if `p` stops, the same way of stopping. */
  ghost predicate Simulates(p: RuntimeProgram, q: RuntimeProgram) {
    forall w: World, f: Frame, n: nat :: Matched(w, q, f, Obs(Run(w, p, Start(f), n)))
  }

  ghost predicate Matched(w: World, q: RuntimeProgram, f: Frame, o: (Trace, Status)) {
    exists m: nat :: Obs(Run(w, q, Start(f), m)) == o
  }

  ghost predicate SameBehaviour(p: RuntimeProgram, q: RuntimeProgram) {
    Simulates(p, q) && Simulates(q, p)
  }
}
