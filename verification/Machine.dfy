/** Values and the fetch-execute loop (src/type.h, src/object.h, src/vm.c). */
module Machine {
  import opened Bytecode

  datatype Result<+T> = Ok(value: T) | Err(msg: string) {
    predicate IsFailure() { Err? }
    function PropagateFailure<U>(): Result<U> requires Err? { Err(msg) }
    function Extract(): T requires Ok? { value }
  }

  type Double = int  // stands for the bit pattern of a double

  datatype Value = Nil | Bool(b: bool) | Num(n: Double) | Str(s: string) | Obj(id: nat)

  /** Floating-point arithmetic and the set of empty arrays and tables are parameters. */
  datatype World = World(
    negate: Double -> Double,
    arith: (ArithOp, Double, Double) -> Double,
    holds: (CompOp, Double, Double) -> bool,
    empties: set<nat>)

  type Regs = s: seq<Value> | |s| == 0x100 witness seq(0x100, _ => Nil)

  /** Globals, and the upvalues of the running closure: what outlives the frame. */
  datatype Shared = Shared(globals: map<string, Value>, upvals: seq<Value>)

  datatype Machine =
    | Running(ip: int, regs: Regs, sh: Shared)
    | Halted(v: Value, sh: Shared)
    | Failed(msg: string, sh: Shared)
    | Stuck

  predicate Falsey(w: World, v: Value) {
    v == Nil || v == Bool(false) || (v.Obj? && v.id in w.empties)
  }

  /** valuesEqual under TAGGED_NAN: numbers by ==, everything else by bits. */
  predicate ValuesEqual(w: World, b: Value, c: Value) {
    if b.Num? && c.Num? then w.holds(Equal, b.n, c.n) else b == c
  }

  function ArithValue(w: World, op: ArithOp, b: Value, c: Value): Result<Value> {
    if op.Add? then
      if b.Str? && c.Str? then Ok(Str(b.s + c.s))
      else if b.Num? && c.Num? then Ok(Num(w.arith(op, b.n, c.n)))
      else Err("Operands must be two numbers or two strings.")
    else if b.Num? && c.Num? then Ok(Num(w.arith(op, b.n, c.n)))
    else Err("Operands must be numbers.")
  }

  function CompValue(w: World, op: CompOp, b: Value, c: Value): Result<Value> {
    if op.Equal? then Ok(Bool(ValuesEqual(w, b, c)))
    else if op.Neq? then Ok(Bool(!ValuesEqual(w, b, c)))
    else if b.Num? && c.Num? then Ok(Bool(w.holds(op, b.n, c.n)))
    else Err("Operands must be numbers.")
  }

  function NegateValue(w: World, v: Value): Result<Value> {
    if v.Num? then Ok(Num(w.negate(v.n))) else Err("Operand must be a number.")
  }

  function GlobalValue(sh: Shared, name: string): Result<Value> {
    if name in sh.globals then Ok(sh.globals[name]) else Err(Undefined(name))
  }

  function Undefined(name: string): string { "Undefined variable '" + name + "'." }

  function PrimitiveValue(p: nat): Value
    requires p < 3
  {
    if p == 0 then Nil else Bool(p == 1)
  }

  /** Opcodes that compute a value into register A. */
  predicate IsValueOp(op: Op) {
    op.ConstNum? || op.Primitive? || op.Negate? || op.Not? || op.GetGlobal? || op.Comp?
    || op.ArithVV? || op.ArithVK? || op.Mov? || op.GetUpval?
  }

  /** The operands that a value instruction names exist. */
  predicate Fetchable(i: Instr, k: seq<Value>, upvals: nat) {
    match i.op
    case ConstNum => i.d < |k|
    case Primitive => i.d < 3
    case Negate => i.d < 0x100
    case Not => i.d < 0x100
    case Mov => i.d < 0x100
    case GetGlobal => i.d < |k| && k[i.d].Str?
    case GetUpval => i.d < upvals
    case ArithVK(_) => i.C() < |k|
    case Comp(_) => true
    case ArithVV(_) => true
    case _ => false
  }

  function Compute(w: World, i: Instr, k: seq<Value>, regs: Regs, sh: Shared): Result<Value>
    requires Fetchable(i, k, |sh.upvals|)
  {
    match i.op
    case ConstNum => Ok(k[i.d])
    case Primitive => Ok(PrimitiveValue(i.d))
    case Negate => NegateValue(w, regs[i.d])
    case Not => Ok(Bool(Falsey(w, regs[i.d])))
    case Mov => Ok(regs[i.d])
    case GetGlobal => GlobalValue(sh, k[i.d].s)
    case GetUpval => Ok(sh.upvals[i.d])
    case ArithVK(op) => ArithValue(w, op, regs[i.B()], k[i.C()])
    case Comp(op) => CompValue(w, op, regs[i.B()], regs[i.C()])
    case ArithVV(op) => ArithValue(w, op, regs[i.B()], regs[i.C()])
  }

  /** What a program runs with: its code and constants, and the world. */
  datatype Program = Program(code: seq<Instr>, consts: seq<Value>, w: World)

  /** One turn of the loop in `run`.  A taken test stops in front of the jump that follows
      it; Stuck stands for a failed assertion or a read outside the frame or the tables. */
  function Step(p: Program, m: Machine): Machine {
    if !m.Running? then m
    else if !(0 <= m.ip < |p.code|) then Stuck
    else
      var i := p.code[m.ip];
      if IsValueOp(i.op) then
        if !Fetchable(i, p.consts, |m.sh.upvals|) then Stuck
        else
          match Compute(p.w, i, p.consts, m.regs, m.sh)
          case Ok(v) => m.(ip := m.ip + 1, regs := m.regs[i.a := v])
          case Err(msg) => Failed(msg, m.sh)
      else match i.op
        case Jump => if i.Disp() == -1 then Stuck else m.(ip := m.ip + 1 + i.Disp())
        case CopyJumpIf(cond) =>
          if i.d >= 0x100 then Stuck
          else Test(p, m.(regs := m.regs[i.a := m.regs[i.d]]), cond, i.d)
        case JumpIf(cond) => if i.d >= 0x100 then Stuck else Test(p, m, cond, i.d)
        case DefineGlobal =>
          if i.d < |p.consts| && p.consts[i.d].Str? then
            m.(ip := m.ip + 1, sh := m.sh.(globals := m.sh.globals[p.consts[i.d].s := m.regs[i.a]]))
          else Stuck
        case SetGlobal =>
          if i.d < |p.consts| && p.consts[i.d].Str? then
            var name := p.consts[i.d].s;
            var sh := m.sh.(globals := m.sh.globals[name := m.regs[i.a]]);
            if name in m.sh.globals then m.(ip := m.ip + 1, sh := sh) else Failed(Undefined(name), sh)
          else Stuck
        case SetUpval =>
          if i.a < |m.sh.upvals| && i.d < 0x100 then
            m.(ip := m.ip + 1, sh := m.sh.(upvals := m.sh.upvals[i.a := m.regs[i.d]]))
          else Stuck
        case Return => Halted(m.regs[i.a], m.sh)
        case _ => Stuck
  }

  function Test(p: Program, m: Machine, cond: bool, d: Reg): Machine
    requires m.Running?
  {
    if !Falsey(p.w, m.regs[d]) == cond then
      if 0 <= m.ip + 1 < |p.code| && p.code[m.ip + 1].op == Jump then m.(ip := m.ip + 1) else Stuck
    else m.(ip := m.ip + 2)
  }

  function Steps(p: Program, m: Machine, n: nat): Machine
    decreases n
  {
    if n == 0 then m else Steps(p, Step(p, m), n - 1)
  }

  lemma {:induction false} StepsAdd(p: Program, m: Machine, i: nat, j: nat)
    ensures Steps(p, Steps(p, m, i), j) == Steps(p, m, i + j)
    decreases i
  {
    if i != 0 {
      StepsAdd(p, Step(p, m), i - 1, j);
    }
  }

  lemma {:induction false} StepsDone(p: Program, m: Machine, n: nat)
    requires !m.Running?
    ensures Steps(p, m, n) == m
    decreases n
  {
    if n != 0 {
      StepsDone(p, m, n - 1);
    }
  }

  ghost predicate Reaches(p: Program, m: Machine, m': Machine) {
    exists n: nat :: Steps(p, m, n) == m'
  }

  lemma ReachesStep(p: Program, m: Machine)
    ensures Reaches(p, m, m) && Reaches(p, m, Step(p, m))
  {
    assert Steps(p, m, 0) == m;
    assert Steps(p, m, 1) == Step(p, m);
  }

  lemma ReachesTrans(p: Program, m0: Machine, m1: Machine, m2: Machine)
    requires Reaches(p, m0, m1) && Reaches(p, m1, m2)
    ensures Reaches(p, m0, m2)
  {
    var i: nat :| Steps(p, m0, i) == m1;
    var j: nat :| Steps(p, m1, j) == m2;
    StepsAdd(p, m0, i, j);
  }
}
